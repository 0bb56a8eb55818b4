/** Which session keys the accounts of a committee hold after a rotation. */
module KeyRegistration {
  import opened Prelude
  import opened CommitteeTypes
  import opened SessionAccounts

  /** Seat `i` is the first one held by its account. */
  ghost predicate FirstSeat(cfg: Config, committee: seq<CommitteeMember>, i: nat)
    requires i < |committee|
  {
    cfg.Account(committee[i]) !in AccountsOf(cfg, committee[..i])
  }

  /** Every account of the committee holds the keys of its first seat. */
  ghost predicate HoldsSeatKeys(cfg: Config, committee: seq<CommitteeMember>, r: Registry) {
    forall i :: 0 <= i < |committee| && FirstSeat(cfg, committee, i) ==>
      KeysOf(r, cfg.Account(committee[i])) == Some(committee[i].keys)
  }

  /** The keys of seat `i` can be registered when the loop reaches it: they are unchanged, or the account
      can take one more consumer and no raw key is claimed by an earlier seat or still held by an
      account that the loop has not reached. */
  ghost predicate SeatKeysFree(cfg: Config, committee: seq<CommitteeMember>, r: Registry, i: nat)
    requires i < |committee|
  {
    var a := cfg.Account(committee[i]);
    || KeysOf(r, a) == Some(committee[i].keys)
    || (&& ForeignConsumers(r, a) < cfg.maxConsumers
        && (forall j :: 0 <= j < i && FirstSeat(cfg, committee, j) ==>
              !SharesKey(committee[j].keys, committee[i].keys))
        && (forall b :: b in r.keys && b !in AccountsOf(cfg, committee[..i + 1]) ==>
              !SharesKey(r.keys[b], committee[i].keys)))
  }

  ghost predicate AllSeatKeysFree(cfg: Config, committee: seq<CommitteeMember>, r: Registry, n: nat)
    requires n <= |committee|
  {
    forall i :: 0 <= i < n && FirstSeat(cfg, committee, i) ==> SeatKeysFree(cfg, committee, r, i)
  }

  lemma SharedAt(k: SessionKeys, l: SessionKeys, i: nat)
    requires i < |k| && i < |l| && k[i] == l[i]
    ensures SharesKey(k, l)
  {
  }

  lemma FirstSeatPrefix(cfg: Config, committee: seq<CommitteeMember>, n: nat, i: nat)
    requires i < n <= |committee|
    ensures FirstSeat(cfg, committee[..n], i) == FirstSeat(cfg, committee, i)
  {
    assert committee[..n][..i] == committee[..i];
  }

  /** An account with a seat has a first seat. */
  lemma {:induction false} FindFirstSeat(cfg: Config, committee: seq<CommitteeMember>, a: AccountId) returns (i: nat)
    requires a in AccountsOf(cfg, committee)
    ensures i < |committee| && FirstSeat(cfg, committee, i) && cfg.Account(committee[i]) == a
  {
    var n := |committee| - 1;
    AccountsOfPrefix(cfg, committee, n);
    assert committee[..n + 1] == committee;
    if a in AccountsOf(cfg, committee[..n]) {
      i := FindFirstSeat(cfg, committee[..n], a);
      FirstSeatPrefix(cfg, committee, n, i);
    } else {
      i := n;
    }
  }

  /** One first-seat step registers the seat's keys exactly when they are free at that point. */
  lemma RegisterFirstSeat(cfg: Config, prior: set<AccountId>, committee: seq<CommitteeMember>, r: Registry, n: nat)
    requires Covered(r, prior) && KeysDisjoint(r)
    requires n < |committee| && FirstSeat(cfg, committee, n)
    requires HoldsSeatKeys(cfg, committee[..n], Register(cfg, prior, committee[..n], r))
    ensures
      KeysOf(Register(cfg, prior, committee[..n + 1], r), cfg.Account(committee[n])) ==
      if SeatKeysFree(cfg, committee, r, n) then Some(committee[n].keys) else None
  {
    var a := cfg.Account(committee[n]);
    var seen := AccountsOf(cfg, committee[..n]);
    var r0 := Register(cfg, prior, committee[..n], r);
    assert committee[..n + 1][..n] == committee[..n];
    RegisterKeeps(cfg, prior, committee[..n], r);
    assert KeysOf(r0, a) == KeysOf(r, a);
    if KeysOf(r, a) != Some(committee[n].keys) {
      var r1 := if a in prior then r0 else IncProviders(r0, a);
      var r2 := PurgeKeys(r1, a);
      assert ForeignProviders(r0, prior + seen, a) == ForeignProviders(r, prior, a) >= 0;
      assert ForeignConsumers(r0, a) == ForeignConsumers(r, a) >= 0;
      assert RefsOf(r2, a).providers > 0 && RefsOf(r2, a).consumers == ForeignConsumers(r, a);
      OwnedByAnotherAtSeat(cfg, prior, committee, r, n, r2);
    }
  }

  /** Keys of other accounts when the loop reaches first seat `n`: earlier accounts hold their seat keys,
      all others still hold what they held before the rotation. */
  lemma OwnedByAnotherAtSeat(cfg: Config, prior: set<AccountId>, committee: seq<CommitteeMember>, r: Registry,
                             n: nat, r2: Registry)
    requires Covered(r, prior) && KeysDisjoint(r)
    requires n < |committee| && FirstSeat(cfg, committee, n)
    requires HoldsSeatKeys(cfg, committee[..n], Register(cfg, prior, committee[..n], r))
    requires forall b: AccountId :: b != cfg.Account(committee[n]) ==>
               KeysOf(r2, b) == KeysOf(Register(cfg, prior, committee[..n], r), b)
    ensures OwnedByAnother(r2, cfg.Account(committee[n]), committee[n].keys) <==>
            || (exists j :: 0 <= j < n && FirstSeat(cfg, committee, j) &&
                            SharesKey(committee[j].keys, committee[n].keys))
            || (exists b :: b in r.keys && b !in AccountsOf(cfg, committee[..n + 1]) &&
                            SharesKey(r.keys[b], committee[n].keys))
  {
    var a, keys := cfg.Account(committee[n]), committee[n].keys;
    var r0 := Register(cfg, prior, committee[..n], r);
    RegisterKeeps(cfg, prior, committee[..n], r);
    AccountsOfPrefix(cfg, committee, n);
    if b :| b in r2.keys && b != a && SharesKey(r2.keys[b], keys) {
      assert KeysOf(r2, b) == KeysOf(r0, b);
      if b in AccountsOf(cfg, committee[..n]) {
        var j := FindFirstSeat(cfg, committee[..n], b);
        FirstSeatPrefix(cfg, committee, n, j);
        assert SharesKey(committee[j].keys, keys);
      } else {
        assert KeysOf(r0, b) == KeysOf(r, b);
      }
    }
    if j :| 0 <= j < n && FirstSeat(cfg, committee, j) && SharesKey(committee[j].keys, keys) {
      FirstSeatPrefix(cfg, committee, n, j);
      var b := cfg.Account(committee[..n][j]);
      assert b in AccountsOf(cfg, committee[..n]);
      assert KeysOf(r2, b) == KeysOf(r0, b) == Some(committee[j].keys);
    }
    if b :| b in r.keys && b !in AccountsOf(cfg, committee[..n + 1]) && SharesKey(r.keys[b], keys) {
      assert KeysOf(r2, b) == KeysOf(r0, b) == KeysOf(r, b);
    }
  }

  /** Once the loop has passed an account, its keys no longer change. */
  lemma {:induction false} PassedKeysStay(cfg: Config, prior: set<AccountId>, committee: seq<CommitteeMember>,
                                          r: Registry, n: nat, a: AccountId)
    requires n <= |committee| && a in AccountsOf(cfg, committee[..n])
    ensures KeysOf(Register(cfg, prior, committee, r), a) == KeysOf(Register(cfg, prior, committee[..n], r), a)
  {
    if n == |committee| {
      assert committee[..n] == committee;
    } else {
      var m := |committee| - 1;
      assert committee[..m][..n] == committee[..n];
      PassedKeysStay(cfg, prior, committee[..m], r, n, a);
      PassedAccounts(cfg, committee, n, m);
      LastSeatKeepsPassed(cfg, prior, committee, r, a);
    }
  }

  lemma LastSeatKeepsPassed(cfg: Config, prior: set<AccountId>, committee: seq<CommitteeMember>, r: Registry,
                            a: AccountId)
    requires |committee| > 0 && a in AccountsOf(cfg, committee[..|committee| - 1])
    ensures KeysOf(Register(cfg, prior, committee, r), a) ==
            KeysOf(Register(cfg, prior, committee[..|committee| - 1], r), a)
  {
    var m := |committee| - 1;
    PassedKeyStays(cfg, prior, AccountsOf(cfg, committee[..m]), Register(cfg, prior, committee[..m], r),
                   committee[m], a);
  }

  lemma PassedKeyStays(cfg: Config, prior: set<AccountId>, seen: set<AccountId>, r: Registry, m: CommitteeMember,
                       a: AccountId)
    requires a in seen
    ensures KeysOf(RegisterMember(cfg, prior, seen, r, m), a) == KeysOf(r, a)
  {
  }

  lemma PassedAccounts(cfg: Config, committee: seq<CommitteeMember>, n: nat, m: nat)
    requires n <= m <= |committee|
    ensures AccountsOf(cfg, committee[..n]) <= AccountsOf(cfg, committee[..m])
  {
    forall a | a in AccountsOf(cfg, committee[..n]) ensures a in AccountsOf(cfg, committee[..m]) {
      var i :| 0 <= i < n && cfg.Account(committee[..n][i]) == a;
      assert committee[..m][i] == committee[..n][i];
    }
  }

  lemma {:induction false} FreeSeatsAreRegistered(cfg: Config, prior: set<AccountId>, committee: seq<CommitteeMember>,
                                                  r: Registry, n: nat)
    requires Covered(r, prior) && KeysDisjoint(r)
    requires n <= |committee| && AllSeatKeysFree(cfg, committee, r, n)
    ensures HoldsSeatKeys(cfg, committee[..n], Register(cfg, prior, committee[..n], r))
  {
    if n > 0 {
      var m := n - 1;
      FreeSeatsAreRegistered(cfg, prior, committee, r, m);
      assert committee[..n][..m] == committee[..m];
      forall i | 0 <= i < n && FirstSeat(cfg, committee[..n], i)
        ensures KeysOf(Register(cfg, prior, committee[..n], r), cfg.Account(committee[i])) == Some(committee[i].keys)
      {
        FirstSeatPrefix(cfg, committee, n, i);
        if i == m {
          RegisterFirstSeat(cfg, prior, committee, r, m);
        } else {
          FirstSeatPrefix(cfg, committee, m, i);
          assert cfg.Account(committee[..m][i]) in AccountsOf(cfg, committee[..m]);
          PassedKeysStay(cfg, prior, committee[..n], r, m, cfg.Account(committee[i]));
        }
      }
    }
  }

  /** After the registration loop every account holds the keys of its first seat
      exactly when the keys of every first seat were free in the state before the loop. */
  lemma SeatKeysRegisteredIffFree(cfg: Config, prior: set<AccountId>, committee: seq<CommitteeMember>, r: Registry)
    requires Covered(r, prior) && KeysDisjoint(r)
    ensures HoldsSeatKeys(cfg, committee, Register(cfg, prior, committee, r)) <==>
            AllSeatKeysFree(cfg, committee, r, |committee|)
  {
    assert committee[..|committee|] == committee;
    if AllSeatKeysFree(cfg, committee, r, |committee|) {
      FreeSeatsAreRegistered(cfg, prior, committee, r, |committee|);
    } else {
      var i := BlockedSeatHasNoKeys(cfg, prior, committee, r);
      var first := FindFirstSeat(cfg, committee, cfg.Account(committee[i]));
      assert KeysOf(Register(cfg, prior, committee, r), cfg.Account(committee[first])) == None;
    }
  }

  /** If the keys of some first seat were not free, some account of the committee is left without any keys. */
  lemma BlockedSeatHasNoKeys(cfg: Config, prior: set<AccountId>, committee: seq<CommitteeMember>, r: Registry)
    returns (i: nat)
    requires Covered(r, prior) && KeysDisjoint(r) && !AllSeatKeysFree(cfg, committee, r, |committee|)
    ensures i < |committee| && KeysOf(Register(cfg, prior, committee, r), cfg.Account(committee[i])) == None
  {
    i := FirstBlockedSeat(cfg, committee, r, |committee|);
    FreeSeatsAreRegistered(cfg, prior, committee, r, i);
    RegisterFirstSeat(cfg, prior, committee, r, i);
    AccountsOfPrefix(cfg, committee, i);
    PassedKeysStay(cfg, prior, committee, r, i + 1, cfg.Account(committee[i]));
  }

  lemma {:induction false} FirstBlockedSeat(cfg: Config, committee: seq<CommitteeMember>, r: Registry, n: nat)
    returns (i: nat)
    requires n <= |committee| && !AllSeatKeysFree(cfg, committee, r, n)
    ensures i < n && FirstSeat(cfg, committee, i) && !SeatKeysFree(cfg, committee, r, i)
    ensures AllSeatKeysFree(cfg, committee, r, i)
  {
    if AllSeatKeysFree(cfg, committee, r, n - 1) {
      i := n - 1;
    } else {
      i := FirstBlockedSeat(cfg, committee, r, n - 1);
    }
  }

  /** The same condition decides the registry after the whole rotation, and whether every seat has any keys at all;
      departed accounts hold no keys and accounts outside both committees keep theirs. */
  lemma RotationRegistersKeys(cfg: Config, prior: set<AccountId>, committee: seq<CommitteeMember>, r: Registry)
    requires Covered(r, prior) && KeysDisjoint(r)
    requires RotateAccounts(cfg, prior, committee, r).Some?
    ensures
      var r' := RotateAccounts(cfg, prior, committee, r).value;
      var seats := AccountsOf(cfg, committee);
      && (HoldsSeatKeys(cfg, committee, r') <==> AllSeatKeysFree(cfg, committee, r, |committee|))
      && (seats <= r'.keys.Keys <==> AllSeatKeysFree(cfg, committee, r, |committee|))
      && (forall a :: a in prior && a !in seats ==> KeysOf(r', a) == None)
      && (forall a: AccountId :: a !in prior && a !in seats ==> KeysOf(r', a) == KeysOf(r, a))
  {
    RotateAccountsKeeps(cfg, prior, committee, r);
    SeatKeysRegisteredIffFree(cfg, prior, committee, r);
    var r1 := Register(cfg, prior, committee, r);
    var r' := RotateAccounts(cfg, prior, committee, r).value;
    forall i | 0 <= i < |committee|
      ensures KeysOf(r', cfg.Account(committee[i])) == KeysOf(r1, cfg.Account(committee[i]))
    {
      assert cfg.Account(committee[i]) in AccountsOf(cfg, committee);
    }
    if AllSeatKeysFree(cfg, committee, r, |committee|) {
      SeatsHaveKeys(cfg, committee, r');
    } else {
      var i := BlockedSeatHasNoKeys(cfg, prior, committee, r);
      assert cfg.Account(committee[i]) in AccountsOf(cfg, committee);
    }
  }

  lemma SeatsHaveKeys(cfg: Config, committee: seq<CommitteeMember>, r: Registry)
    requires HoldsSeatKeys(cfg, committee, r)
    ensures AccountsOf(cfg, committee) <= r.keys.Keys
  {
    forall a | a in AccountsOf(cfg, committee) ensures a in r.keys {
      var first := FindFirstSeat(cfg, committee, a);
      assert KeysOf(r, cfg.Account(committee[first])) == Some(committee[first].keys);
    }
  }

  /** No key type has the same raw key on both sides; the same raw key under different types is allowed. */
  predicate NoCommonKey(k: SessionKeys, l: SessionKeys) {
    forall t :: 0 <= t < |k| && t < |l| ==> k[t] != l[t]
  }

  /** If no key of the new committee is held by a different account and no two accounts ask for the same key,
      every seat's keys are free. */
  lemma UnclaimedKeysAreFree(cfg: Config, committee: seq<CommitteeMember>, r: Registry)
    requires forall i :: 0 <= i < |committee| ==> ForeignConsumers(r, cfg.Account(committee[i])) < cfg.maxConsumers
    requires forall i, b :: 0 <= i < |committee| && b in r.keys && b != cfg.Account(committee[i]) ==>
               NoCommonKey(r.keys[b], committee[i].keys)
    requires forall i, j :: 0 <= j < i < |committee| && cfg.Account(committee[i]) != cfg.Account(committee[j]) ==>
               NoCommonKey(committee[j].keys, committee[i].keys)
    ensures AllSeatKeysFree(cfg, committee, r, |committee|)
  {
    forall i | 0 <= i < |committee| && FirstSeat(cfg, committee, i) ensures SeatKeysFree(cfg, committee, r, i) {
      forall j | 0 <= j < i ensures cfg.Account(committee[j]) != cfg.Account(committee[i]) {
        assert committee[..i][j] == committee[j];
        assert cfg.Account(committee[j]) in AccountsOf(cfg, committee[..i]);
      }
      assert cfg.Account(committee[..i + 1][i]) in AccountsOf(cfg, committee[..i + 1]);
    }
  }

  /** Two sitting members that swap their keys: the first one is left with no keys at all. */
  lemma SwappedKeysLoseOne(cfg: Config, alice: CommitteeMember, bob: CommitteeMember, r: Registry)
    requires cfg.Account(alice) != cfg.Account(bob)
    requires |alice.keys| > 0 && alice.keys != bob.keys
    requires r.keys == map[cfg.Account(alice) := bob.keys, cfg.Account(bob) := alice.keys]
    requires Covered(r, AccountsOf(cfg, [alice, bob])) && KeysDisjoint(r)
    ensures KeysOf(Register(cfg, AccountsOf(cfg, [alice, bob]), [alice, bob], r), cfg.Account(alice)) == None
  {
    var committee := [alice, bob];
    var prior := AccountsOf(cfg, committee);
    var a := cfg.Account(alice);
    assert committee[..0] == [] && committee[..1] == [alice];
    SharedAt(alice.keys, alice.keys, 0);
    AccountsOfPrefix(cfg, committee, 0);
    assert !SeatKeysFree(cfg, committee, r, 0) by {
      assert cfg.Account(bob) !in AccountsOf(cfg, committee[..1]);
      assert r.keys[cfg.Account(bob)] == alice.keys;
    }
    RegisterFirstSeat(cfg, prior, committee, r, 0);
    assert a in AccountsOf(cfg, committee[..1]);
    PassedKeysStay(cfg, prior, committee, r, 1, a);
  }
}
