/** Recovery of a stale committee while the chain epoch stands still. */
module CatchUp {
  import opened Prelude
  import opened CommitteeTypes
  import opened SessionAccounts
  import opened RotationSpec
  import opened RotationRuns
  import opened InherentAgreement

  /** Blocks of honest proposers, all in chain epoch `epoch`. */
  function HonestRun(cfg: Config, s: State, epoch: nat, inputs: seq<SelectionInputs>): Option<State> {
    if |inputs| == 0 then Some(s)
    else
      match HonestRun(cfg, s, epoch, inputs[..|inputs| - 1])
      case None => None
      case Some(s') => ExecuteBlock(cfg, s', epoch, ProposedCall(cfg, s', epoch, inputs[|inputs| - 1]))
  }

  /** How many committee epochs the state is behind. */
  function Gap(s: State, epoch: nat): nat {
    if epoch <= s.current.epoch then 0 else epoch - s.current.epoch
  }

  /** Blocks that can rotate: a missing next committee costs a stale chain its first block. */
  function EffectiveBlocks(s: State, epoch: nat, blocks: nat): nat {
    if s.next.None? && Gap(s, epoch) > 0 && blocks > 0 then blocks - 1 else blocks
  }

  /** The gap closes by one per block; then exactly one additional session activates the last committee; then no
      session ends until the epoch changes. No block fails on the way. */
  lemma {:induction false} CatchesUp(cfg: Config, s: State, epoch: nat, inputs: seq<SelectionInputs>)
    requires cfg.Valid() && Sound(cfg, s) && OnlyKeysConsume(s.registry, s.provided)
    requires s.number > 0 && epoch >= s.epoch
    ensures HonestRun(cfg, s, epoch, inputs).Some?
    ensures
      var s' := HonestRun(cfg, s, epoch, inputs).value;
      var gap := Gap(s, epoch);
      var blocks := EffectiveBlocks(s, epoch, |inputs|);
      var idle := gap == 0 && s.stage == AwaitEpochChange;
      && Sound(cfg, s') && OnlyKeysConsume(s'.registry, s'.provided)
      && s'.number > 0 && s'.epoch <= epoch
      && (|inputs| > 0 ==> s'.next.Some?)
      && (|inputs| == 0 ==> s' == s)
      && s'.current.epoch == s.current.epoch + Min(blocks, gap)
      && s'.sessionIndex == s.sessionIndex + (if idle then 0 else Min(blocks, gap + 1))
      && s'.stage == (if blocks == 0 then s.stage
                      else if blocks <= gap then NewSessionDueEpochChange
                      else AwaitEpochChange)
  {
    if |inputs| > 0 {
      var n := |inputs| - 1;
      CatchesUp(cfg, s, epoch, inputs[..n]);
      var s1 := HonestRun(cfg, s, epoch, inputs[..n]).value;
      HonestBlockIsAccepted(cfg, s1, epoch, inputs[n]);
      BeginBlockEffect(cfg, s1, epoch);
    }
  }

  /** Once caught up, the active validators are the seats of the committee for the chain epoch. */
  lemma CaughtUpValidators(cfg: Config, s: State, epoch: nat, inputs: seq<SelectionInputs>)
    requires cfg.Valid() && Sound(cfg, s) && OnlyKeysConsume(s.registry, s.provided)
    requires s.number > 0 && epoch >= s.epoch
    requires Gap(s, epoch) > 0 && |inputs| >= Gap(s, epoch) + 2
    ensures
      var s' := HonestRun(cfg, s, epoch, inputs);
      && s'.Some? && s'.value.current.epoch == epoch
      && s'.value.validators == QueuedAccounts(SeatedQueue(cfg, s'.value))
  {
    CatchesUp(cfg, s, epoch, inputs);
  }
}
