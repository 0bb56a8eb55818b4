/** Provider counts and session-key registration during a committee rotation. */
module SessionAccounts {
  import opened Prelude
  import opened CommitteeTypes

  function RefsOf(r: Registry, a: AccountId): Refs {
    if a in r.refs then r.refs[a] else Refs(0, 0)
  }

  function KeysOf(r: Registry, a: AccountId): Option<SessionKeys> {
    if a in r.keys then Some(r.keys[a]) else None
  }

  predicate SharesKey(k: SessionKeys, l: SessionKeys) {
    exists i :: 0 <= i < |k| && i < |l| && k[i] == l[i]
  }

  /** Some raw key of `keys` is owned by an account other than `a`. */
  predicate OwnedByAnother(r: Registry, a: AccountId, keys: SessionKeys) {
    exists b :: b in r.keys && b != a && SharesKey(r.keys[b], keys)
  }

  function IncProviders(r: Registry, a: AccountId): Registry {
    var c := RefsOf(r, a);
    r.(refs := r.refs[a := c.(providers := c.providers + 1)])
  }

  /** `purge_keys`: without registered keys the call fails and changes nothing. */
  function PurgeKeys(r: Registry, a: AccountId): Registry {
    if a !in r.keys then r
    else
      var c := RefsOf(r, a);
      var consumers := if c.consumers == 0 then 0 else c.consumers - 1;
      Registry(r.keys - {a}, r.refs[a := c.(consumers := consumers)])
  }

  /** `set_keys`: fails without change when the account cannot take a consumer or a key is taken. */
  function SetKeys(cfg: Config, r: Registry, a: AccountId, keys: SessionKeys): Registry {
    var c := RefsOf(r, a);
    if c.providers == 0 || c.consumers >= cfg.maxConsumers || OwnedByAnother(r, a, keys) then r
    else if a in r.keys then r.(keys := r.keys[a := keys])
    else Registry(r.keys[a := keys], r.refs[a := c.(consumers := c.consumers + 1)])
  }

  /** `dec_providers` refuses to remove the last provider of an account that has consumers. */
  predicate CannotUnprovide(r: Registry, a: AccountId) {
    RefsOf(r, a).providers <= 1 && RefsOf(r, a).consumers > 0
  }

  function DecProviders(r: Registry, a: AccountId): Registry
    requires !CannotUnprovide(r, a)
  {
    var c := RefsOf(r, a);
    r.(refs := r.refs[a := c.(providers := if c.providers <= 1 then 0 else c.providers - 1)])
  }

  /** One iteration of the registration loop: seats after an account's first one are ignored. */
  function RegisterMember(cfg: Config, prior: set<AccountId>, seen: set<AccountId>, r: Registry,
                          m: CommitteeMember): Registry
  {
    var a := cfg.Account(m);
    if a in seen then r
    else
      var provided := if a in prior then r else IncProviders(r, a);
      if KeysOf(provided, a) == Some(m.keys) then provided
      else SetKeys(cfg, PurgeKeys(provided, a), a, m.keys)
  }

  /** The registration loop over a whole committee. */
  function Register(cfg: Config, prior: set<AccountId>, committee: seq<CommitteeMember>, r: Registry): Registry
  {
    if |committee| == 0 then r
    else
      var n := |committee| - 1;
      RegisterMember(cfg, prior, AccountsOf(cfg, committee[..n]),
                     Register(cfg, prior, committee[..n], r), committee[n])
  }

  /** Counters of an account after its keys were purged and its provider removed. */
  function RetiredRefs(r: Registry, a: AccountId): Refs {
    var c := RefsOf(PurgeKeys(r, a), a);
    c.(providers := if c.providers <= 1 then 0 else c.providers - 1)
  }

  predicate RetireBlocked(r: Registry, a: AccountId) {
    CannotUnprovide(PurgeKeys(r, a), a)
  }

  /** The clean-up loop over departed accounts, in any order. */
  function Retire(r: Registry, gone: set<AccountId>): Registry {
    Registry(r.keys - gone,
             map a | a in r.refs.Keys + gone :: if a in gone then RetiredRefs(r, a) else r.refs[a])
  }

  /** Registry after rotating from the accounts `prior` to `committee`; `None` is a panic. */
  function RotateAccounts(cfg: Config, prior: set<AccountId>, committee: seq<CommitteeMember>, r: Registry)
    : Option<Registry>
  {
    var gone := prior - AccountsOf(cfg, committee);
    var registered := Register(cfg, prior, committee, r);
    if exists a :: a in gone && RetireBlocked(registered, a) then None
    else Some(Retire(registered, gone))
  }

  // ---------------------------------------------------------------- invariants

  /** References held by other pallets: the counters without this pallet's provider
      and without the consumer that registered session keys account for. */
  function ForeignProviders(r: Registry, provided: set<AccountId>, a: AccountId): int {
    RefsOf(r, a).providers - (if a in provided then 1 else 0)
  }

  function ForeignConsumers(r: Registry, a: AccountId): int {
    RefsOf(r, a).consumers - (if a in r.keys then 1 else 0)
  }

  /** The counters cover this pallet's provider and the session keys' consumer. */
  ghost predicate Covered(r: Registry, provided: set<AccountId>) {
    forall a: AccountId :: ForeignProviders(r, provided, a) >= 0 && ForeignConsumers(r, a) >= 0
  }

  ghost predicate SameForeign(r: Registry, provided: set<AccountId>, r': Registry, provided': set<AccountId>) {
    forall a: AccountId ::
      && ForeignProviders(r', provided', a) == ForeignProviders(r, provided, a)
      && ForeignConsumers(r', a) == ForeignConsumers(r, a)
  }

  /** No raw key is registered for two accounts. */
  ghost predicate KeysDisjoint(r: Registry) {
    forall a, b :: a in r.keys && b in r.keys && a != b ==> !SharesKey(r.keys[a], r.keys[b])
  }

  /** Session keys are the only consumer of every account that no other pallet provides for. */
  ghost predicate OnlyKeysConsume(r: Registry, provided: set<AccountId>) {
    forall a: AccountId :: ForeignProviders(r, provided, a) == 0 ==> ForeignConsumers(r, a) == 0
  }

  // ---------------------------------------------------------------- lemmas

  lemma SharesKeySymmetric(k: SessionKeys, l: SessionKeys)
    ensures SharesKey(k, l) == SharesKey(l, k)
  {
    if i :| 0 <= i < |k| && i < |l| && k[i] == l[i] { assert l[i] == k[i]; }
    if i :| 0 <= i < |l| && i < |k| && l[i] == k[i] { assert k[i] == l[i]; }
  }

  lemma AccountsOfPrefix(cfg: Config, committee: seq<CommitteeMember>, n: nat)
    requires n < |committee|
    ensures AccountsOf(cfg, committee[..n + 1]) == AccountsOf(cfg, committee[..n]) + {cfg.Account(committee[n])}
  {
    var longer, shorter := committee[..n + 1], committee[..n];
    forall a | a in AccountsOf(cfg, longer)
      ensures a in AccountsOf(cfg, shorter) + {cfg.Account(committee[n])}
    {
      var i :| 0 <= i < |longer| && cfg.Account(longer[i]) == a;
      if i < n { assert shorter[i] == longer[i]; }
    }
    forall a | a in AccountsOf(cfg, shorter) ensures a in AccountsOf(cfg, longer) {
      var i :| 0 <= i < |shorter| && cfg.Account(shorter[i]) == a;
      assert longer[i] == shorter[i];
    }
    assert longer[n] == committee[n];
  }

  /** Distinct accounts never outnumber seats, so the bounded set conversion cannot fail. */
  lemma {:induction false} AccountsAtMostSeats(cfg: Config, committee: seq<CommitteeMember>)
    ensures |AccountsOf(cfg, committee)| <= |committee|
  {
    if |committee| > 0 {
      var n := |committee| - 1;
      AccountsAtMostSeats(cfg, committee[..n]);
      AccountsOfPrefix(cfg, committee, n);
      assert committee[..n + 1] == committee;
    }
  }

  lemma PurgeKeysKeeps(r: Registry, provided: set<AccountId>, a: AccountId)
    requires Covered(r, provided)
    ensures SameForeign(r, provided, PurgeKeys(r, a), provided)
    ensures KeysOf(PurgeKeys(r, a), a) == None
    ensures forall b: AccountId :: b != a ==> KeysOf(PurgeKeys(r, a), b) == KeysOf(r, b)
  {
    assert ForeignConsumers(r, a) >= 0;
  }

  lemma SetKeysKeeps(cfg: Config, r: Registry, provided: set<AccountId>, a: AccountId, keys: SessionKeys)
    ensures SameForeign(r, provided, SetKeys(cfg, r, a, keys), provided)
    ensures forall b: AccountId :: b != a ==> KeysOf(SetKeys(cfg, r, a, keys), b) == KeysOf(r, b)
  {
  }

  lemma SetKeysDisjoint(cfg: Config, r: Registry, a: AccountId, keys: SessionKeys)
    requires KeysDisjoint(r)
    ensures KeysDisjoint(SetKeys(cfg, r, a, keys))
  {
    var r' := SetKeys(cfg, r, a, keys);
    if r' != r {
      forall b | b in r.keys && b != a ensures !SharesKey(r.keys[b], keys) && !SharesKey(keys, r.keys[b]) {
        SharesKeySymmetric(r.keys[b], keys);
      }
    }
  }

  /** What one registration step keeps: foreign references, disjoint keys, other accounts' keys. */
  lemma RegisterMemberKeeps(cfg: Config, prior: set<AccountId>, seen: set<AccountId>, r: Registry,
                            m: CommitteeMember)
    requires Covered(r, prior + seen) && KeysDisjoint(r)
    ensures
      var r' := RegisterMember(cfg, prior, seen, r, m);
      var a := cfg.Account(m);
      && SameForeign(r, prior + seen, r', prior + (seen + {a}))
      && KeysDisjoint(r')
      && (forall b: AccountId :: b != a ==> KeysOf(r', b) == KeysOf(r, b))
  {
    var a := cfg.Account(m);
    if a in seen {
      assert seen + {a} == seen;
    } else {
      var p := prior + (seen + {a});
      var r1 := if a in prior then r else IncProviders(r, a);
      assert SameForeign(r, prior + seen, r1, p);
      assert Covered(r1, p);
      if KeysOf(r1, a) != Some(m.keys) {
        PurgeKeysKeeps(r1, p, a);
        SetKeysKeeps(cfg, PurgeKeys(r1, a), p, a, m.keys);
        SetKeysDisjoint(cfg, PurgeKeys(r1, a), a, m.keys);
      }
    }
  }

  /** Registration adds exactly one provider per account that lacks one, and touches no foreign reference. */
  lemma {:induction false} RegisterKeeps(cfg: Config, prior: set<AccountId>, committee: seq<CommitteeMember>,
                                         r: Registry)
    requires Covered(r, prior) && KeysDisjoint(r)
    ensures
      var r' := Register(cfg, prior, committee, r);
      && SameForeign(r, prior, r', prior + AccountsOf(cfg, committee))
      && KeysDisjoint(r')
      && (forall b: AccountId :: b !in AccountsOf(cfg, committee) ==> KeysOf(r', b) == KeysOf(r, b))
  {
    if |committee| == 0 {
      assert prior + AccountsOf(cfg, committee) == prior;
    } else {
      var n := |committee| - 1;
      RegisterKeeps(cfg, prior, committee[..n], r);
      AccountsOfPrefix(cfg, committee, n);
      assert committee[..n + 1] == committee;
      RegisterMemberKeeps(cfg, prior, AccountsOf(cfg, committee[..n]),
                          Register(cfg, prior, committee[..n], r), committee[n]);
    }
  }

  lemma PurgeAfterRetire(r: Registry, done: set<AccountId>, a: AccountId)
    requires a !in done
    ensures RefsOf(PurgeKeys(Retire(r, done), a), a) == RefsOf(PurgeKeys(r, a), a)
    ensures PurgeKeys(Retire(r, done), a).keys == r.keys - (done + {a})
    ensures forall b: AccountId :: b != a ==> RefsOf(PurgeKeys(Retire(r, done), a), b) == RefsOf(Retire(r, done), b)
    ensures PurgeKeys(Retire(r, done), a).refs.Keys + {a} == r.refs.Keys + (done + {a})
  {
    var cur := Retire(r, done);
    assert RefsOf(cur, a) == RefsOf(r, a) && KeysOf(cur, a) == KeysOf(r, a);
  }

  /** The clean-up loop handles departed accounts independently of each other. */
  lemma RetireOneMore(r: Registry, done: set<AccountId>, a: AccountId)
    requires a !in done
    ensures CannotUnprovide(PurgeKeys(Retire(r, done), a), a) == RetireBlocked(r, a)
    ensures !RetireBlocked(r, a) ==>
              DecProviders(PurgeKeys(Retire(r, done), a), a) == Retire(r, done + {a})
  {
    PurgeAfterRetire(r, done, a);
    if !RetireBlocked(r, a) {
      var purged := PurgeKeys(Retire(r, done), a);
      var stepped, whole := DecProviders(purged, a), Retire(r, done + {a});
      forall b | b in whole.refs ensures b in stepped.refs && stepped.refs[b] == whole.refs[b] {
        if b != a {
          assert RefsOf(purged, b) == RefsOf(Retire(r, done), b);
        }
      }
      assert stepped.refs == whole.refs;
    }
  }

  lemma RetireKeeps(r: Registry, provided: set<AccountId>, gone: set<AccountId>)
    requires Covered(r, provided) && gone <= provided
    ensures SameForeign(r, provided, Retire(r, gone), provided - gone)
  {
    forall a: AccountId
      ensures
        && ForeignProviders(Retire(r, gone), provided - gone, a) == ForeignProviders(r, provided, a)
        && ForeignConsumers(Retire(r, gone), a) == ForeignConsumers(r, a)
    {
      assert ForeignProviders(r, provided, a) >= 0 && ForeignConsumers(r, a) >= 0;
    }
  }

  /** A rotation panics exactly when a departed account is kept alive only by this pallet
      while another pallet still holds a consumer reference on it. */
  lemma RotateAccountsPanics(cfg: Config, prior: set<AccountId>, committee: seq<CommitteeMember>, r: Registry)
    requires Covered(r, prior) && KeysDisjoint(r)
    ensures RotateAccounts(cfg, prior, committee, r).None? <==>
            exists a :: a in prior && a !in AccountsOf(cfg, committee) &&
                        ForeignProviders(r, prior, a) == 0 && ForeignConsumers(r, a) > 0
  {
    RegisterKeeps(cfg, prior, committee, r);
    var seats := AccountsOf(cfg, committee);
    var r1 := Register(cfg, prior, committee, r);
    forall a | a in prior && a !in seats
      ensures RetireBlocked(r1, a) <==> ForeignProviders(r, prior, a) == 0 && ForeignConsumers(r, a) > 0
    {
      assert ForeignProviders(r1, prior + seats, a) == ForeignProviders(r, prior, a) >= 0;
      assert ForeignConsumers(r1, a) == ForeignConsumers(r, a) >= 0;
    }
  }

  /** A rotation moves this pallet's provider from the departed accounts to the new ones,
      leaves every foreign reference alone and frees the keys of the departed accounts. */
  lemma RotateAccountsKeeps(cfg: Config, prior: set<AccountId>, committee: seq<CommitteeMember>, r: Registry)
    requires Covered(r, prior) && KeysDisjoint(r)
    requires RotateAccounts(cfg, prior, committee, r).Some?
    ensures
      var r' := RotateAccounts(cfg, prior, committee, r).value;
      var seats := AccountsOf(cfg, committee);
      && SameForeign(r, prior, r', seats)
      && Covered(r', seats)
      && KeysDisjoint(r')
      && (forall a :: a in prior && a !in seats ==> KeysOf(r', a) == None)
      && (forall a: AccountId :: a !in prior && a !in seats ==> KeysOf(r', a) == KeysOf(r, a))
  {
    var seats := AccountsOf(cfg, committee);
    var r1 := Register(cfg, prior, committee, r);
    RegisterKeeps(cfg, prior, committee, r);
    assert Covered(r1, prior + seats);
    RetireKeeps(r1, prior + seats, prior - seats);
    assert (prior + seats) - (prior - seats) == seats;
  }
}
