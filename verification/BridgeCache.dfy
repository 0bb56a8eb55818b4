/** The caching data source of the token bridge, and its refinement of the direct one. */
module BridgeCache {
  import opened Prelude
  import opened BridgeSource

  function SaturatingAdd(a: nat, b: nat): nat {
    if a + b > MAX_U32 then MAX_U32 else a + b
  }

  function SaturatingSub(a: nat, b: nat): nat {
    if a <= b then 0 else a - b
  }

  /** Contents of the cache; `startBlock` and `endBlock` are inclusive. */
  datatype Cache = Cache(
    scripts: Scripts,
    startBlock: nat,
    endBlock: nat,
    transfers: seq<BridgeUtxo>,
    byId: map<UtxoId, BridgeUtxo>)

  function SkipUntilAfter(utxos: seq<BridgeUtxo>, cp: ResolvedCheckpoint): seq<BridgeUtxo> {
    if |utxos| == 0 || After(cp, utxos[0]) then utxos else SkipUntilAfter(utxos[1..], cp)
  }

  function TakeUpTo(utxos: seq<BridgeUtxo>, to: nat): seq<BridgeUtxo> {
    if |utxos| == 0 || utxos[0].key.block > to then [] else [utxos[0]] + TakeUpTo(utxos[1..], to)
  }

  /** The cached range covers everything after the checkpoint. */
  predicate CoversStart(c: Cache, cp: ResolvedCheckpoint) {
    match cp
    case AtBlock(number) => c.startBlock <= SaturatingAdd(number, 1)
    case AtUtxo(key) => c.startBlock <= key.block
  }

  /** `serve_from_cache`; `None` is a cache miss. */
  function Serve(c: Cache, cp: ResolvedCheckpoint, to: nat, max: nat): Option<seq<BridgeUtxo>> {
    if c.endBlock < to || !CoversStart(c, cp) then None
    else Some(Take(TakeUpTo(SkipUntilAfter(c.transfers, cp), to), max))
  }

  function SetScripts(c: Cache, scripts: Scripts): Cache {
    if c.scripts == scripts then c
    else c.(scripts := scripts, transfers := [], startBlock := 0, endBlock := 0)
  }

  function IdOf(utxos: seq<BridgeUtxo>): map<UtxoId, BridgeUtxo> {
    if |utxos| == 0 then map[] else IdOf(utxos[..|utxos| - 1])[utxos[|utxos| - 1].id := utxos[|utxos| - 1]]
  }

  function BlockOf(cp: ResolvedCheckpoint): nat {
    match cp
    case AtUtxo(key) => key.block
    case AtBlock(number) => number
  }

  /** Last block that is loaded into the cache for a request up to block `to`. */
  function FillEnd(to: nat, lookahead: nat, latestStable: Option<nat>): nat {
    var latest := if latestStable.Some? then latestStable.value else to;
    var wanted := SaturatingAdd(to, lookahead);
    if wanted <= latest then wanted else latest
  }

  /** `fill_cache`: everything from one block before the checkpoint's block. */
  function Fill(chain: MainChain, c: Cache, scripts: Scripts, cp: ResolvedCheckpoint, end: nat): Cache {
    var from := BlockOf(cp);
    var utxos := Select(chain.utxosOf(scripts), AtBlock(SaturatingSub(from, 1)), end);
    c.(startBlock := from, endBlock := end, transfers := utxos, byId := IdOf(utxos))
  }

  /** The cache holds what the main chain holds in its range, and its index gives chain positions. */
  ghost predicate Coherent(chain: MainChain, c: Cache) {
    && c.startBlock <= MAX_U32
    && c.transfers == Select(chain.utxosOf(c.scripts), AtBlock(SaturatingSub(c.startBlock, 1)), c.endBlock)
    && forall id :: id in c.byId ==> id in chain.positions && chain.positions[id] == c.byId[id].key
  }

  /** An output of block 0 lies after the checkpoint. */
  ghost predicate BlockZeroPending(utxos: seq<BridgeUtxo>, cp: ResolvedCheckpoint) {
    exists i :: 0 <= i < |utxos| && utxos[i].key.block == 0 && After(cp, utxos[i])
  }

  // ---------------------------------------------------------------- sorted lists

  lemma {:induction false} TakeUpToIsSelect(utxos: seq<BridgeUtxo>, cp: ResolvedCheckpoint, to: nat)
    requires InOrder(utxos) && (|utxos| > 0 ==> After(cp, utxos[0]))
    ensures TakeUpTo(utxos, to) == Select(utxos, cp, to)
  {
    if |utxos| > 0 {
      assert |utxos| > 1 ==> KeyLess(utxos[0].key, utxos[1].key);
      if utxos[0].key.block > to {
        NoneInRange(utxos, cp, to);
      } else {
        TakeUpToIsSelect(utxos[1..], cp, to);
      }
    }
  }

  lemma {:induction false} NoneInRange(utxos: seq<BridgeUtxo>, cp: ResolvedCheckpoint, to: nat)
    requires InOrder(utxos) && |utxos| > 0 && utxos[0].key.block > to
    ensures Select(utxos, cp, to) == []
  {
    if |utxos| > 1 {
      assert KeyLess(utxos[0].key, utxos[1].key);
      NoneInRange(utxos[1..], cp, to);
    }
  }

  /** Skipping and taking on a sorted list is the same as filtering it. */
  lemma {:induction false} SkipTakeIsSelect(utxos: seq<BridgeUtxo>, cp: ResolvedCheckpoint, to: nat)
    requires InOrder(utxos)
    ensures TakeUpTo(SkipUntilAfter(utxos, cp), to) == Select(utxos, cp, to)
  {
    if |utxos| > 0 {
      if After(cp, utxos[0]) {
        TakeUpToIsSelect(utxos, cp, to);
      } else {
        SkipTakeIsSelect(utxos[1..], cp, to);
      }
    }
  }

  lemma {:induction false} SelectMembers(utxos: seq<BridgeUtxo>, cp: ResolvedCheckpoint, to: nat)
    ensures forall u :: u in Select(utxos, cp, to) <==> u in utxos && InRange(cp, to, u)
  {
    if |utxos| > 0 {
      SelectMembers(utxos[1..], cp, to);
      assert utxos == [utxos[0]] + utxos[1..];
    }
  }

  lemma {:induction false} SelectInOrder(utxos: seq<BridgeUtxo>, cp: ResolvedCheckpoint, to: nat)
    requires InOrder(utxos)
    ensures InOrder(Select(utxos, cp, to))
  {
    if |utxos| > 0 {
      var rest := Select(utxos[1..], cp, to);
      SelectInOrder(utxos[1..], cp, to);
      SelectMembers(utxos[1..], cp, to);
      forall j | 0 <= j < |rest| ensures KeyLess(utxos[0].key, rest[j].key) {
        assert rest[j] in utxos[1..];
      }
    }
  }

  /** Filtering a wider range first changes nothing. */
  lemma {:induction false} SelectWithin(utxos: seq<BridgeUtxo>, wide: ResolvedCheckpoint, end: nat,
                                        cp: ResolvedCheckpoint, to: nat)
    requires to <= end
    requires forall u :: u in utxos && InRange(cp, to, u) ==> After(wide, u)
    ensures Select(Select(utxos, wide, end), cp, to) == Select(utxos, cp, to)
  {
    if |utxos| > 0 {
      SelectWithin(utxos[1..], wide, end, cp, to);
      var rest := Select(utxos[1..], wide, end);
      if InRange(wide, end, utxos[0]) {
        assert Select(utxos, wide, end)[1..] == rest;
      } else {
        assert Select(utxos, wide, end) == rest;
      }
    }
  }

  // ---------------------------------------------------------------- refinement

  lemma CachedRangeSuffices(chain: MainChain, c: Cache, cp: ResolvedCheckpoint, to: nat)
    requires chain.Valid() && Coherent(chain, c) && CoversStart(c, cp) && to <= c.endBlock
    requires (cp.AtBlock? ==> cp.number <= MAX_U32) && !BlockZeroPending(chain.utxosOf(c.scripts), cp)
    ensures Select(c.transfers, cp, to) == Select(chain.utxosOf(c.scripts), cp, to)
  {
    var utxos := chain.utxosOf(c.scripts);
    var wide := AtBlock(SaturatingSub(c.startBlock, 1));
    forall u | u in utxos && InRange(cp, to, u) ensures After(wide, u) {
      var i :| 0 <= i < |utxos| && utxos[i] == u;
      assert u.key.block != 0;
    }
    SelectWithin(utxos, wide, c.endBlock, cp, to);
  }

  lemma CacheLacksBlockZero(chain: MainChain, c: Cache, cp: ResolvedCheckpoint, to: nat)
    requires Coherent(chain, c)
    ensures forall u :: u in Select(c.transfers, cp, to) ==> u.key.block > 0
  {
    SelectMembers(chain.utxosOf(c.scripts), AtBlock(SaturatingSub(c.startBlock, 1)), c.endBlock);
    SelectMembers(c.transfers, cp, to);
  }

  /** The outputs that a cache can ever hold: those after block 0. */
  function Cacheable(utxos: seq<BridgeUtxo>): seq<BridgeUtxo> {
    if |utxos| == 0 then []
    else (if utxos[0].key.block > 0 then [utxos[0]] else []) + Cacheable(utxos[1..])
  }

  lemma SelectCons(u: BridgeUtxo, rest: seq<BridgeUtxo>, cp: ResolvedCheckpoint, to: nat)
    ensures Select([u] + rest, cp, to) == (if InRange(cp, to, u) then [u] else []) + Select(rest, cp, to)
  {
    assert ([u] + rest)[1..] == rest;
  }

  lemma {:induction false} SelectCacheable(utxos: seq<BridgeUtxo>, wide: nat, end: nat, cp: ResolvedCheckpoint, to: nat)
    requires to <= end
    requires forall u :: u in utxos && InRange(cp, to, u) && u.key.block > 0 ==> u.key.block > wide
    ensures Select(Select(utxos, AtBlock(wide), end), cp, to) == Select(Cacheable(utxos), cp, to)
  {
    if |utxos| > 0 {
      var u, rest := utxos[0], utxos[1..];
      SelectCacheable(rest, wide, end, cp, to);
      SelectCons(u, Select(rest, AtBlock(wide), end), cp, to);
      SelectCons(u, Cacheable(rest), cp, to);
      EmptyFirst(Select(rest, AtBlock(wide), end));
      EmptyFirst(Cacheable(rest));
    }
  }

  lemma EmptyFirst(utxos: seq<BridgeUtxo>)
    ensures [] + utxos == utxos
  {
  }

  /** What a hit is, always: the direct query over the outputs after block 0. */
  lemma ServeIs(chain: MainChain, c: Cache, cp: ResolvedCheckpoint, to: nat, max: nat)
    requires chain.Valid() && Coherent(chain, c)
    requires Serve(c, cp, to, max).Some? && (cp.AtBlock? ==> cp.number <= MAX_U32)
    ensures Serve(c, cp, to, max).value == Take(Select(Cacheable(chain.utxosOf(c.scripts)), cp, to), max)
  {
    var utxos := chain.utxosOf(c.scripts);
    var wide := SaturatingSub(c.startBlock, 1);
    SelectInOrder(utxos, AtBlock(wide), c.endBlock);
    SkipTakeIsSelect(c.transfers, cp, to);
    SelectCacheable(utxos, wide, c.endBlock, cp, to);
  }

  /** A coherent cache that covers a request serves exactly the direct query's answer, unless an output of block 0
      lies after the checkpoint: such outputs are never loaded. */
  lemma ServeIsQueryIff(chain: MainChain, c: Cache, cp: ResolvedCheckpoint, to: nat, max: nat)
    requires chain.Valid() && Coherent(chain, c)
    requires Serve(c, cp, to, max).Some? && (cp.AtBlock? ==> cp.number <= MAX_U32)
    ensures Serve(c, cp, to, max).value == Take(Select(chain.utxosOf(c.scripts), cp, to), max) <==>
            max == 0 || !BlockZeroPending(chain.utxosOf(c.scripts), cp)
  {
    var utxos := chain.utxosOf(c.scripts);
    SelectInOrder(utxos, AtBlock(SaturatingSub(c.startBlock, 1)), c.endBlock);
    SkipTakeIsSelect(c.transfers, cp, to);
    if !BlockZeroPending(utxos, cp) {
      CachedRangeSuffices(chain, c, cp, to);
    } else if max > 0 {
      var i :| 0 <= i < |utxos| && utxos[i].key.block == 0 && After(cp, utxos[i]);
      FirstIsBlockZero(utxos, cp, to, i);
      CacheLacksBlockZero(chain, c, cp, to);
      DifferentFirst(Select(c.transfers, cp, to), Select(utxos, cp, to), max);
    }
  }

  lemma DifferentFirst(served: seq<BridgeUtxo>, direct: seq<BridgeUtxo>, max: nat)
    requires max > 0 && |direct| > 0 && direct[0].key.block == 0
    requires forall u :: u in served ==> u.key.block > 0
    ensures Take(served, max) != Take(direct, max)
  {
    if |served| > 0 {
      assert served[0] in served;
      assert Take(served, max)[0] == served[0] && Take(direct, max)[0] == direct[0];
    }
  }

  lemma {:induction false} FirstIsBlockZero(utxos: seq<BridgeUtxo>, cp: ResolvedCheckpoint, to: nat, i: nat)
    requires InOrder(utxos) && i < |utxos| && utxos[i].key.block == 0 && After(cp, utxos[i])
    ensures |Select(utxos, cp, to)| > 0 && Select(utxos, cp, to)[0].key.block == 0
  {
    if i > 0 {
      assert KeyLess(utxos[0].key, utxos[i].key);
      FirstIsBlockZero(utxos[1..], cp, to, i - 1);
    }
  }

  lemma {:induction false} IdsArePositions(chain: MainChain, utxos: seq<BridgeUtxo>)
    requires forall u :: u in utxos ==> u.id in chain.positions && chain.positions[u.id] == u.key
    ensures forall id :: id in IdOf(utxos) ==> id in chain.positions && chain.positions[id] == IdOf(utxos)[id].key
  {
    if |utxos| > 0 {
      IdsArePositions(chain, utxos[..|utxos| - 1]);
      assert utxos[|utxos| - 1] in utxos;
    }
  }

  lemma FillIsCoherent(chain: MainChain, c: Cache, cp: ResolvedCheckpoint, end: nat)
    requires chain.Valid() && BlockOf(cp) <= MAX_U32
    ensures Coherent(chain, Fill(chain, c, c.scripts, cp, end))
    ensures CoversStart(Fill(chain, c, c.scripts, cp, end), cp)
  {
    var utxos := chain.utxosOf(c.scripts);
    var wide := AtBlock(SaturatingSub(BlockOf(cp), 1));
    SelectMembers(utxos, wide, end);
    forall u | u in Select(utxos, wide, end) ensures u.id in chain.positions && chain.positions[u.id] == u.key {
      var i :| 0 <= i < |utxos| && utxos[i] == u;
    }
    IdsArePositions(chain, Select(utxos, wide, end));
  }

  lemma {:induction false} EmptyRange(utxos: seq<BridgeUtxo>)
    ensures Select(utxos, AtBlock(0), 0) == []
  {
    if |utxos| > 0 {
      EmptyRange(utxos[1..]);
    }
  }

  lemma SetScriptsIsCoherent(chain: MainChain, c: Cache, scripts: Scripts)
    requires Coherent(chain, c)
    ensures Coherent(chain, SetScripts(c, scripts)) && SetScripts(c, scripts).scripts == scripts
  {
    EmptyRange(chain.utxosOf(scripts));
  }

  // ---------------------------------------------------------------- the data source

  function WithoutBlockZero(chain: MainChain): MainChain {
    chain.(utxosOf := (s: Scripts) => Cacheable(chain.utxosOf(s)))
  }

  lemma {:induction false} SameTransfers(chain: MainChain, utxos: seq<BridgeUtxo>)
    ensures Transfers(WithoutBlockZero(chain), utxos) == Transfers(chain, utxos)
  {
    if |utxos| > 0 {
      SameTransfers(chain, utxos[1..]);
    }
  }

  datatype SourceError = UnknownCheckpoint | NotInCache

  class CachedSource {
    const chain: MainChain
    const lookahead: nat
    var scripts: Scripts
    var startBlock: nat
    var endBlock: nat
    var transfers: seq<BridgeUtxo>
    var byId: map<UtxoId, BridgeUtxo>

    function View(): Cache
      reads this
    {
      Cache(scripts, startBlock, endBlock, transfers, byId)
    }

    constructor (chain: MainChain, lookahead: nat, scripts: Scripts)
      ensures this.chain == chain && this.lookahead == lookahead
      ensures Coherent(chain, View())
    {
      this.chain := chain;
      this.lookahead := lookahead;
      this.scripts := scripts;
      startBlock, endBlock, transfers, byId := 0, 0, [], map[];
      EmptyRange(chain.utxosOf(scripts));
    }

    method SetMcScripts(scripts: Scripts)
      modifies this
      ensures View() == SetScripts(old(View()), scripts)
    {
      if this.scripts != scripts {
        this.scripts := scripts;
        transfers := [];
        startBlock := 0;
        endBlock := 0;
      }
    }

    method FillCache(cp: ResolvedCheckpoint, to: nat, latestStable: Option<nat>)
      modifies this
      ensures View() == Fill(chain, old(View()), old(scripts), cp, FillEnd(to, lookahead, latestStable))
    {
      var from := BlockOf(cp);
      var effective := AtBlock(SaturatingSub(from, 1));
      var end := FillEnd(to, lookahead, latestStable);
      var utxos := Select(chain.utxosOf(scripts), effective, end);
      startBlock := from;
      endBlock := end;
      byId := IdOf(utxos);
      transfers := utxos;
    }

    /** `try_resolve_checkpoint_from_cache`, then the main chain. */
    method ResolveCheckpoint(cp: Checkpoint) returns (r: Option<ResolvedCheckpoint>)
      requires Coherent(chain, View())
      ensures r == Resolve(chain, cp)
    {
      match cp {
        case Block(number) => r := Some(AtBlock(number));
        case Utxo(id) =>
          if id in byId {
            r := Some(AtUtxo(byId[id].key));
          } else {
            r := Resolve(chain, cp);
          }
      }
    }

    /** Whatever an earlier request left in the cache, the answer is that of the direct source on a chain without
        block 0, or an error exactly when the cache misses and the stable tip has not reached the requested block. */
    method GetTransfersCached(scripts: Scripts, cp: Checkpoint, max: nat, to: nat, latestStable: Option<nat>)
      returns (r: Result<(seq<Transfer>, Checkpoint), SourceError>)
      requires chain.Valid() && Coherent(chain, View()) && to <= MAX_U32
      requires Resolve(chain, cp).Some? ==> BlockOf(Resolve(chain, cp).value) <= MAX_U32
      modifies this
      ensures Coherent(chain, View()) && this.scripts == scripts
      ensures r == Err(UnknownCheckpoint) <==> Resolve(chain, cp).None?
      ensures r == Err(NotInCache) <==>
              && Resolve(chain, cp).Some?
              && Serve(SetScripts(old(View()), scripts), Resolve(chain, cp).value, to, max).None?
              && latestStable.Some? && latestStable.value < to
      ensures r.Ok? ==> Some(r.value) == GetTransfers(WithoutBlockZero(chain), scripts, cp, max, to)
      ensures r.Ok? && !BlockZeroPending(chain.utxosOf(scripts), Resolve(chain, cp).value) ==>
                Some(r.value) == GetTransfers(chain, scripts, cp, max, to)
    {
      SetScriptsIsCoherent(chain, View(), scripts);
      SetMcScripts(scripts);
      var resolved := ResolveCheckpoint(cp);
      if resolved.None? {
        return Err(UnknownCheckpoint);
      }
      var utxos := Serve(View(), resolved.value, to, max);
      if utxos.None? {
        FillIsCoherent(chain, View(), resolved.value, FillEnd(to, lookahead, latestStable));
        FillCache(resolved.value, to, latestStable);
        utxos := Serve(View(), resolved.value, to, max);
        if utxos.None? {
          return Err(NotInCache);
        }
      }
      ServeIs(chain, View(), resolved.value, to, max);
      SameTransfers(chain, utxos.value);
      ServeIsQueryIff(chain, View(), resolved.value, to, max);
      return Ok((Transfers(chain, utxos.value), NextCheckpoint(utxos.value, max, to)));
    }
  }

  // ---------------------------------------------------------------- concurrent requests

  /** Updates of the shared cache, each made under the lock by some request for its own scripts. */
  datatype Update = SetTo(scripts: Scripts) | FilledFor(scripts: Scripts, cp: ResolvedCheckpoint, end: nat)

  function Apply(chain: MainChain, c: Cache, update: Update): Cache {
    match update
    case SetTo(scripts) => SetScripts(c, scripts)
    case FilledFor(scripts, cp, end) => Fill(chain, c, scripts, cp, end)
  }

  function ApplyAll(chain: MainChain, c: Cache, updates: seq<Update>): Cache {
    if |updates| == 0 then c
    else Apply(chain, ApplyAll(chain, c, updates[..|updates| - 1]), updates[|updates| - 1])
  }

  /** What the order of the locked steps says about the cache, without looking at the chain: the configured scripts, and
      the scripts and block range of the last fill since the last clearing. */
  datatype Summary = Summary(configured: Scripts, loaded: Scripts, start: nat, end: nat)

  function Track(m: Summary, update: Update): Summary {
    match update
    case SetTo(scripts) => if m.configured == scripts then m else Summary(scripts, scripts, 0, 0)
    case FilledFor(scripts, cp, end) => m.(loaded := scripts, start := BlockOf(cp), end := end)
  }

  function TrackAll(m: Summary, updates: seq<Update>): Summary {
    if |updates| == 0 then m else Track(TrackAll(m, updates[..|updates| - 1]), updates[|updates| - 1])
  }

  ghost predicate Describes(chain: MainChain, m: Summary, c: Cache) {
    && c.scripts == m.configured && c.startBlock == m.start && c.endBlock == m.end
    && Coherent(chain, c.(scripts := m.loaded))
  }

  ghost predicate BlocksInRange(updates: seq<Update>) {
    forall i :: 0 <= i < |updates| && updates[i].FilledFor? ==> BlockOf(updates[i].cp) <= MAX_U32
  }

  /** Under any interleaving of the locked steps of any requests, the cache holds what the chain holds for the
      scripts of the last fill. */
  lemma {:induction false} InterleavedStepsKeepSummary(chain: MainChain, m: Summary, c: Cache, updates: seq<Update>)
    requires chain.Valid() && Describes(chain, m, c) && BlocksInRange(updates)
    ensures Describes(chain, TrackAll(m, updates), ApplyAll(chain, c, updates))
  {
    if |updates| > 0 {
      var n := |updates| - 1;
      InterleavedStepsKeepSummary(chain, m, c, updates[..n]);
      var m1, c1 := TrackAll(m, updates[..n]), ApplyAll(chain, c, updates[..n]);
      match updates[n] {
        case SetTo(scripts) =>
          EmptyRange(chain.utxosOf(scripts));
        case FilledFor(scripts, cp, end) =>
          FillIsCoherent(chain, c1.(scripts := scripts), cp, end);
      }
    }
  }

  ghost predicate NoneBetween(utxos: seq<BridgeUtxo>, cp: ResolvedCheckpoint, to: nat) {
    forall i :: 0 <= i < |utxos| ==> !InRange(cp, to, utxos[i])
  }

  lemma {:induction false} NoneSelectedIff(utxos: seq<BridgeUtxo>, cp: ResolvedCheckpoint, to: nat)
    ensures Select(utxos, cp, to) == [] <==> NoneBetween(utxos, cp, to)
  {
    SelectMembers(utxos, cp, to);
    var selected := Select(utxos, cp, to);
    if |selected| > 0 {
      assert selected[0] in selected;
      var i :| 0 <= i < |utxos| && utxos[i] == selected[0];
      assert InRange(cp, to, utxos[i]);
    } else if i :| 0 <= i < |utxos| && InRange(cp, to, utxos[i]) {
      assert utxos[i] in selected;
    }
  }

  /** No output belongs to both script configurations. */
  ghost predicate Apart(chain: MainChain, a: Scripts, b: Scripts) {
    forall u :: u in chain.utxosOf(a) ==> u !in chain.utxosOf(b)
  }

  /** Whether a hit for `scripts` is the right answer when the cache was last filled for `loaded`. */
  ghost predicate AnsweredBy(chain: MainChain, loaded: Scripts, scripts: Scripts, cp: ResolvedCheckpoint, to: nat) {
    if loaded == scripts then !BlockZeroPending(chain.utxosOf(scripts), cp)
    else NoneBetween(Cacheable(chain.utxosOf(loaded)), cp, to) && NoneBetween(chain.utxosOf(scripts), cp, to)
  }

  /** Under any interleaving, a request that hits the cache gets the direct answer for the scripts of the last fill,
      but for outputs of block 0. This is its own answer if and only if the last fill was for its own scripts and no
      output of block 0 is pending, or the last fill was for scripts with other outputs and neither has anything to
      report; a zero limit asks for nothing. */
  lemma InterleavedHitIsDirectIff(chain: MainChain, m: Summary, c: Cache, updates: seq<Update>,
                                  scripts: Scripts, cp: ResolvedCheckpoint, to: nat, max: nat)
    requires chain.Valid() && Describes(chain, m, c) && BlocksInRange(updates) && BlockOf(cp) <= MAX_U32
    requires Serve(ApplyAll(chain, c, updates), cp, to, max).Some?
    ensures
      var loaded := TrackAll(m, updates).loaded;
      var served := Serve(ApplyAll(chain, c, updates), cp, to, max).value;
      && served == Take(Select(Cacheable(chain.utxosOf(loaded)), cp, to), max)
      && (loaded == scripts || Apart(chain, loaded, scripts) ==>
            (served == Take(Select(chain.utxosOf(scripts), cp, to), max) <==>
             max == 0 || AnsweredBy(chain, loaded, scripts, cp, to)))
  {
    InterleavedStepsKeepSummary(chain, m, c, updates);
    var loaded := TrackAll(m, updates).loaded;
    var c' := ApplyAll(chain, c, updates).(scripts := loaded);
    ServeIs(chain, c', cp, to, max);
    if loaded == scripts {
      ServeIsQueryIff(chain, c', cp, to, max);
    } else if max > 0 && Apart(chain, loaded, scripts) {
      CacheableMembers(chain.utxosOf(loaded));
      ApartAnswersDiffer(Cacheable(chain.utxosOf(loaded)), chain.utxosOf(scripts), cp, to, max);
    }
  }

  /** Answers from lists without a common output are equal only if both are empty. */
  lemma ApartAnswersDiffer(a: seq<BridgeUtxo>, b: seq<BridgeUtxo>, cp: ResolvedCheckpoint, to: nat, max: nat)
    requires max > 0 && forall u :: u in a ==> u !in b
    ensures Take(Select(a, cp, to), max) == Take(Select(b, cp, to), max) <==>
            NoneBetween(a, cp, to) && NoneBetween(b, cp, to)
  {
    NoneSelectedIff(a, cp, to);
    NoneSelectedIff(b, cp, to);
    SelectMembers(a, cp, to);
    SelectMembers(b, cp, to);
    var x, y := Select(a, cp, to), Select(b, cp, to);
    if |x| > 0 && |y| > 0 {
      assert x[0] in x && y[0] in y;
      assert Take(x, max)[0] == x[0] && Take(y, max)[0] == y[0];
    }
  }

  lemma {:induction false} CacheableMembers(utxos: seq<BridgeUtxo>)
    ensures forall u :: u in Cacheable(utxos) ==> u in utxos
  {
    if |utxos| > 0 {
      CacheableMembers(utxos[1..]);
    }
  }

  /** The last start block of a cached range that still covers a checkpoint. */
  function LatestStart(cp: ResolvedCheckpoint): nat {
    match cp
    case AtBlock(number) => SaturatingAdd(number, 1)
    case AtUtxo(key) => key.block
  }

  /** Under any interleaving, a request misses the cache if and only if the range of the last fill ends before the
      requested block or starts after the checkpoint. */
  lemma InterleavedServeMissesIff(chain: MainChain, m: Summary, c: Cache, updates: seq<Update>,
                                  cp: ResolvedCheckpoint, to: nat, max: nat)
    requires chain.Valid() && Describes(chain, m, c) && BlocksInRange(updates)
    ensures
      var last := TrackAll(m, updates);
      Serve(ApplyAll(chain, c, updates), cp, to, max).None? <==> last.end < to || LatestStart(cp) < last.start
  {
    InterleavedStepsKeepSummary(chain, m, c, updates);
  }

  lemma {:induction false} TrackConcat(m: Summary, a: seq<Update>, b: seq<Update>)
    ensures TrackAll(m, a + b) == TrackAll(TrackAll(m, a), b)
  {
    if |b| == 0 {
      assert a + b == a;
    } else {
      assert (a + b)[..|a + b| - 1] == a + b[..|b| - 1];
      TrackConcat(m, a, b[..|b| - 1]);
    }
  }

  /** No step replaces the range of a cache configured for `scripts`: there is no fill and no change of scripts. */
  ghost predicate Undisturbed(scripts: Scripts, updates: seq<Update>) {
    forall i :: 0 <= i < |updates| ==> updates[i] == SetTo(scripts)
  }

  lemma {:induction false} UndisturbedKeeps(m: Summary, updates: seq<Update>)
    requires Undisturbed(m.configured, updates)
    ensures TrackAll(m, updates) == m
  {
    if |updates| > 0 {
      UndisturbedKeeps(m, updates[..|updates| - 1]);
    }
  }

  /** A request that has just filled the cache and is undisturbed is refused if and only if the stable tip is too
      low. */
  lemma UndisturbedRequestMissesIff(chain: MainChain, m: Summary, c: Cache, others: seq<Update>, scripts: Scripts,
                                    cp: ResolvedCheckpoint, to: nat, end: nat, max: nat)
    requires chain.Valid() && Describes(chain, m, c) && m.configured == scripts
    requires BlockOf(cp) <= MAX_U32 && Undisturbed(scripts, others)
    ensures
      var steps := [FilledFor(scripts, cp, end)] + others;
      Serve(ApplyAll(chain, c, steps), cp, to, max).None? <==> end < to
  {
    var own := [FilledFor(scripts, cp, end)];
    assert own[..0] == [];
    TrackConcat(m, own, others);
    UndisturbedKeeps(TrackAll(m, own), others);
    assert BlocksInRange(own + others);
    InterleavedServeMissesIff(chain, m, c, own + others, cp, to, max);
  }

  /** A fill looks ahead: afterwards every request that resumes no earlier hits the cache, up to the lookahead or the
      stable tip, whichever is lower. */
  lemma LookaheadIsServed(chain: MainChain, c: Cache, scripts: Scripts, cp: ResolvedCheckpoint, to: nat, lookahead: nat,
                          latestStable: Option<nat>, cp': ResolvedCheckpoint, to': nat, max: nat)
    requires BlockOf(cp) <= BlockOf(cp') <= MAX_U32 && to' <= MAX_U32
    requires to' <= to + lookahead && to' <= if latestStable.Some? then latestStable.value else to
    ensures Serve(Fill(chain, c, scripts, cp, FillEnd(to, lookahead, latestStable)), cp', to', max).Some?
  {
  }

  /** A request is refused, although it has just filled the cache and the chain reaches far enough, when another request
      for the same scripts and a later range fills it before the second attempt. */
  lemma OverlappingFillRefuses(chain: MainChain, c: Cache, scripts: Scripts, cp: ResolvedCheckpoint, to: nat, end: nat,
                               later: ResolvedCheckpoint, laterEnd: nat, max: nat)
    requires to <= end && LatestStart(cp) < BlockOf(later)
    ensures
      var filled := Fill(chain, c, scripts, cp, end);
      && (BlockOf(cp) <= MAX_U32 ==> Serve(filled, cp, to, max).Some?)
      && Serve(Fill(chain, filled, scripts, later, laterEnd), cp, to, max).None?
  {
  }

  /** Requests for different scripts: if the first one fills the cache after the second one has set its scripts, the
      second one is served outputs of the first one's address. */
  lemma MixedRequestsServeWrongOutputs(chain: MainChain, c: Cache, first: Scripts, second: Scripts, u: BridgeUtxo)
    requires first != second && u.key.block == 1
    requires chain.utxosOf(first) == [u] && chain.utxosOf(second) == []
    ensures
      var c1 := SetScripts(c, first);
      var c2 := SetScripts(c1, second);
      var c3 := Fill(chain, c2, first, AtBlock(0), 1);
      && c3.scripts == second
      && Serve(c3, AtBlock(0), 1, 1) == Some([u])
      && Take(Select(chain.utxosOf(second), AtBlock(0), 1), 1) == []
  {
    assert [u][1..] == [];
    assert Select([u], AtBlock(0), 1) == [u];
    assert TakeUpTo([u], 1) == [u];
  }
}
