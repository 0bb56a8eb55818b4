/** Accounting of block production entries over whole runs: the inherent data provider reads the log of the parent
    block, the block then appends its own entry, and the `note_processing` inherent removes what was read. */
module LogAccounting {
  import opened Prelude
  import opened ProductionLog

  /** A block: the moment passed to the data provider, whether the provider's schedule releases data in this block,
      and the entry the block itself appends (none if author or moment is unknown). */
  datatype Block = Block(moment: nat, release: bool, own: Option<Entry>)

  /** The log, the last processed moment, and what happened so far: every entry ever appended, the batches
      released to the handler and, batch by batch, what the clean-up removed beyond the released entries. */
  datatype Ledger = Ledger(
    log: seq<Entry>,
    processedUpTo: nat,
    history: seq<Entry>,
    released: seq<seq<Entry>>,
    lost: seq<seq<Entry>>)

  function OwnEntry(b: Block): seq<Entry> {
    if b.own.Some? then [b.own.value] else []
  }

  /** `blocks_to_process` on the parent state. */
  function BlocksToProcess(l: Ledger, b: Block): seq<Entry> {
    if b.release then l.log[..PrefixLength(l.log, b.moment)] else []
  }

  /** One block; `None` when `note_processing` fails with a moment that does not increase. */
  function ExecuteBlock(l: Ledger, b: Block): Option<Ledger> {
    var batch := BlocksToProcess(l, b);
    var appended := l.(log := l.log + OwnEntry(b), history := l.history + OwnEntry(b));
    if batch == [] then Some(appended)
    else if l.processedUpTo >= b.moment then None
    else
      PrefixOfLonger(l.log, OwnEntry(b), b.moment);
      var n := PrefixLength(appended.log, b.moment);
      Some(appended.(log := appended.log[n..], processedUpTo := b.moment,
                     released := l.released + [batch],
                     lost := l.lost + [appended.log[|batch|..n]]))
  }

  function Execute(l: Ledger, blocks: seq<Block>): Option<Ledger> {
    if |blocks| == 0 then Some(l)
    else
      match Execute(l, blocks[..|blocks| - 1])
      case None => None
      case Some(l') => ExecuteBlock(l', blocks[|blocks| - 1])
  }

  function Concat(batches: seq<seq<Entry>>): seq<Entry> {
    if |batches| == 0 then [] else Concat(batches[..|batches| - 1]) + batches[|batches| - 1]
  }

  /** Released batches, each followed by what was lost with it. */
  function Removed(released: seq<seq<Entry>>, lost: seq<seq<Entry>>): seq<Entry>
    requires |released| == |lost|
  {
    if |released| == 0 then []
    else
      var n := |released| - 1;
      Removed(released[..n], lost[..n]) + released[n] + lost[n]
  }

  /** Every entry ever appended was released, lost or is still in the log, each exactly once and in order. */
  ghost predicate Accounted(l: Ledger) {
    && |l.released| == |l.lost|
    && l.history == Removed(l.released, l.lost) + l.log
  }

  const EMPTY := Ledger([], 0, [], [], [])

  lemma {:induction false} PrefixOfLonger(log: seq<Entry>, more: seq<Entry>, moment: nat)
    ensures PrefixLength(log + more, moment) ==
            if PrefixLength(log, moment) < |log| then PrefixLength(log, moment)
            else |log| + PrefixLength(more, moment)
  {
    if |log| == 0 {
      assert log + more == more;
    } else {
      assert (log + more)[1..] == log[1..] + more;
      PrefixOfLonger(log[1..], more, moment);
    }
  }

  /** A releasing block loses its own entry exactly when it is not later than the processed moment
      and nothing later precedes it in the log; it never loses anything else. */
  lemma LostIsOwnEntry(l: Ledger, b: Block)
    requires BlocksToProcess(l, b) != [] && l.processedUpTo < b.moment
    ensures
      var l' := ExecuteBlock(l, b).value;
      && l'.released == l.released + [BlocksToProcess(l, b)]
      && l'.lost == l.lost + [if b.own.Some? && b.own.value.moment <= b.moment && BlocksToProcess(l, b) == l.log
                              then OwnEntry(b) else []]
      && BlocksToProcess(l, b) + l'.lost[|l.lost|] + l'.log == l.log + OwnEntry(b)
  {
    PrefixOfLonger(l.log, OwnEntry(b), b.moment);
    var batch, own := BlocksToProcess(l, b), OwnEntry(b);
    OwnPrefix(b);
    var all, m := l.log + own, |batch| + if batch == l.log then PrefixLength(own, b.moment) else 0;
    assert batch == l.log <==> |batch| == |l.log|;
    assert m == PrefixLength(all, b.moment);
    assert batch + all[|batch|..m] + all[m..] == all;
    assert all[|batch|..m] == if batch == l.log then own[..PrefixLength(own, b.moment)] else [];
  }

  lemma OwnPrefix(b: Block)
    ensures
      OwnEntry(b)[..PrefixLength(OwnEntry(b), b.moment)] ==
      if b.own.Some? && b.own.value.moment <= b.moment then OwnEntry(b) else []
  {
  }

  /** A block outside the release schedule only appends its own entry. */
  lemma NoReleaseOnlyAppends(l: Ledger, b: Block)
    requires !b.release
    ensures ExecuteBlock(l, b) == Some(l.(log := l.log + OwnEntry(b), history := l.history + OwnEntry(b)))
  {
  }

  lemma RemovedSingle(released: seq<seq<Entry>>, lost: seq<seq<Entry>>, batch: seq<Entry>, extra: seq<Entry>)
    requires |released| == |lost|
    ensures Removed(released + [batch], lost + [extra]) == Removed(released, lost) + batch + extra
  {
    assert (released + [batch])[..|released|] == released && (lost + [extra])[..|lost|] == lost;
  }

  lemma Regroup(a: seq<Entry>, b: seq<Entry>, c: seq<Entry>, d: seq<Entry>)
    ensures a + b + c + d == a + (b + c + d)
    ensures a + b + c == a + (b + c)
  {
  }

  lemma BlockKeepsAccount(l: Ledger, b: Block)
    requires Accounted(l) && ExecuteBlock(l, b).Some?
    ensures Accounted(ExecuteBlock(l, b).value)
  {
    var l' := ExecuteBlock(l, b).value;
    var batch, own, removed := BlocksToProcess(l, b), OwnEntry(b), Removed(l.released, l.lost);
    Regroup(removed, l.log, own, []);
    assert l'.history == removed + (l.log + own);
    if batch != [] {
      LostIsOwnEntry(l, b);
      var extra := l'.lost[|l.lost|];
      assert l'.lost == l.lost + [extra];
      RemovedSingle(l.released, l.lost, batch, extra);
      Regroup(removed, batch, extra, l'.log);
    }
  }

  /** Conservation over every run from the empty log. */
  lemma {:induction false} RunIsAccounted(blocks: seq<Block>)
    requires Execute(EMPTY, blocks).Some?
    ensures Accounted(Execute(EMPTY, blocks).value)
  {
    if |blocks| > 0 {
      RunIsAccounted(blocks[..|blocks| - 1]);
      BlockKeepsAccount(Execute(EMPTY, blocks[..|blocks| - 1]).value, blocks[|blocks| - 1]);
    }
  }

  /** As long as appended moments never decrease the log stays sorted, so the binary search of the clean-up
      and the linear read of the data provider see the same prefix. */
  lemma RunKeepsLogSorted(blocks: seq<Block>)
    requires Execute(EMPTY, blocks).Some? && Sorted(Execute(EMPTY, blocks).value.history)
    ensures Sorted(Execute(EMPTY, blocks).value.log)
  {
    RunIsAccounted(blocks);
    var l := Execute(EMPTY, blocks).value;
    SuffixIsSorted(Removed(l.released, l.lost), l.log);
  }

  lemma SuffixIsSorted(front: seq<Entry>, log: seq<Entry>)
    requires Sorted(front + log)
    ensures Sorted(log)
  {
    var all := front + log;
    forall i, j | 0 <= i < j < |log| ensures log[i].moment <= log[j].moment {
      assert all[|front| + i] == log[i] && all[|front| + j] == log[j];
    }
  }

  lemma {:induction false} RemovedLength(released: seq<seq<Entry>>, lost: seq<seq<Entry>>)
    requires |released| == |lost|
    ensures |Removed(released, lost)| == |Concat(released)| + |Concat(lost)|
    ensures Concat(lost) == [] ==> Removed(released, lost) == Concat(released)
  {
    if |released| > 0 {
      RemovedLength(released[..|released| - 1], lost[..|lost| - 1]);
    }
  }

  /** Release is exactly-once over a run if and only if no clean-up removed an unreleased entry. */
  lemma ExactlyOnceIffNothingLost(blocks: seq<Block>)
    requires Execute(EMPTY, blocks).Some?
    ensures
      var l := Execute(EMPTY, blocks).value;
      l.history == Concat(l.released) + l.log <==> Concat(l.lost) == []
  {
    RunIsAccounted(blocks);
    var l := Execute(EMPTY, blocks).value;
    RemovedLength(l.released, l.lost);
  }

  /** The block's own entry carries the block's moment, and moments never decrease. */
  ghost predicate OwnMoments(blocks: seq<Block>) {
    && (forall i :: 0 <= i < |blocks| && blocks[i].own.Some? ==> blocks[i].own.value.moment == blocks[i].moment)
    && (forall i, j :: 0 <= i < j < |blocks| ==> blocks[i].moment <= blocks[j].moment)
  }

  /** The own entries of the blocks of a run that release data. */
  function OwnEntriesOfReleases(blocks: seq<Block>): seq<Entry> {
    if |blocks| == 0 then []
    else
      var n := |blocks| - 1;
      var before := Execute(EMPTY, blocks[..n]);
      OwnEntriesOfReleases(blocks[..n])
      + if before.Some? && BlocksToProcess(before.value, blocks[n]) != [] then OwnEntry(blocks[n]) else []
  }

  ghost predicate NoneLater(log: seq<Entry>, moment: nat) {
    forall i :: 0 <= i < |log| ==> log[i].moment <= moment
  }

  lemma BlockAddsNoneLater(l: Ledger, b: Block, moment: nat)
    requires ExecuteBlock(l, b).Some? && NoneLater(l.log, moment)
    requires b.own.Some? ==> b.own.value.moment <= moment
    ensures NoneLater(ExecuteBlock(l, b).value.log, moment)
  {
  }

  lemma {:induction false} RunAddsNoneLater(blocks: seq<Block>, moment: nat)
    requires OwnMoments(blocks) && Execute(EMPTY, blocks).Some?
    requires forall i :: 0 <= i < |blocks| ==> blocks[i].moment <= moment
    ensures NoneLater(Execute(EMPTY, blocks).value.log, moment)
  {
    if |blocks| > 0 {
      var n := |blocks| - 1;
      RunAddsNoneLater(blocks[..n], moment);
      BlockAddsNoneLater(Execute(EMPTY, blocks[..n]).value, blocks[n], moment);
    }
  }

  lemma WholeLogIsPrefix(log: seq<Entry>, moment: nat)
    requires NoneLater(log, moment)
    ensures PrefixLength(log, moment) == |log|
  {
  }

  lemma ConcatSingle(batches: seq<seq<Entry>>, batch: seq<Entry>)
    ensures Concat(batches + [batch]) == Concat(batches) + batch
  {
    assert (batches + [batch])[..|batches|] == batches;
  }

  /** With the log wired in directly, where the own entry is appended before the clean-up of the same block,
      the entries that are never released are exactly the own entries of the releasing blocks. */
  lemma {:induction false} LostEntriesOfRun(blocks: seq<Block>)
    requires OwnMoments(blocks) && Execute(EMPTY, blocks).Some?
    ensures Concat(Execute(EMPTY, blocks).value.lost) == OwnEntriesOfReleases(blocks)
  {
    if |blocks| > 0 {
      var n := |blocks| - 1;
      var before := Execute(EMPTY, blocks[..n]).value;
      assert OwnMoments(blocks[..n]) && forall i :: 0 <= i < n ==> blocks[..n][i].moment <= blocks[n].moment;
      LostEntriesOfRun(blocks[..n]);
      RunAddsNoneLater(blocks[..n], blocks[n].moment);
      BlockLosesOwnEntry(before, blocks[n]);
      assert Execute(EMPTY, blocks) == ExecuteBlock(before, blocks[n]);
    }
  }

  /** So release is exactly-once if and only if no releasing block knows its own author. */
  lemma ExactlyOnceIffNoAuthoredRelease(blocks: seq<Block>)
    requires OwnMoments(blocks) && Execute(EMPTY, blocks).Some?
    ensures
      var l := Execute(EMPTY, blocks).value;
      l.history == Concat(l.released) + l.log <==> OwnEntriesOfReleases(blocks) == []
  {
    ExactlyOnceIffNothingLost(blocks);
    LostEntriesOfRun(blocks);
  }

  lemma BlockLosesOwnEntry(l: Ledger, b: Block)
    requires ExecuteBlock(l, b).Some? && (b.own.Some? ==> b.own.value.moment == b.moment)
    requires NoneLater(l.log, b.moment)
    ensures Concat(ExecuteBlock(l, b).value.lost) ==
            Concat(l.lost) + if BlocksToProcess(l, b) != [] then OwnEntry(b) else []
  {
    if BlocksToProcess(l, b) != [] {
      WholeLogIsPrefix(l.log, b.moment);
      LostIsOwnEntry(l, b);
      ConcatSingle(l.lost, OwnEntry(b));
    }
  }

  /** The log holds only appended entries in order: along a run of blocks whose moments never decrease, the history is
      sorted and no entry is later than the blocks. */
  lemma {:induction false} HistoryIsSorted(blocks: seq<Block>, moment: nat)
    requires OwnMoments(blocks) && Execute(EMPTY, blocks).Some?
    requires forall i :: 0 <= i < |blocks| ==> blocks[i].moment <= moment
    ensures Sorted(Execute(EMPTY, blocks).value.history) && NoneLater(Execute(EMPTY, blocks).value.history, moment)
  {
    if |blocks| > 0 {
      var n := |blocks| - 1;
      HistoryIsSorted(blocks[..n], blocks[n].moment);
      var before := Execute(EMPTY, blocks[..n]).value;
      SortedWithLater(before.history, blocks[n]);
      assert Execute(EMPTY, blocks).value.history == before.history + OwnEntry(blocks[n]);
    }
  }

  lemma SortedWithLater(log: seq<Entry>, b: Block)
    requires Sorted(log) && NoneLater(log, b.moment) && (b.own.Some? ==> b.own.value.moment == b.moment)
    ensures Sorted(log + OwnEntry(b)) && NoneLater(log + OwnEntry(b), b.moment)
  {
  }

  /** So every block of such a run finds the log in the order that `ParticipationPallet.RunBlock` relies on. */
  lemma EveryBlockFindsSortedLog(blocks: seq<Block>, n: nat)
    requires OwnMoments(blocks) && n < |blocks| && Execute(EMPTY, blocks[..n]).Some?
    ensures Sorted(Execute(EMPTY, blocks[..n]).value.log + OwnEntry(blocks[n]))
  {
    var before := blocks[..n];
    HistoryIsSorted(before, blocks[n].moment);
    RunKeepsLogSorted(before);
    RunAddsNoneLater(before, blocks[n].moment);
    SortedWithLater(Execute(EMPTY, before).value.log, blocks[n]);
  }

  ghost predicate StrictMoments(blocks: seq<Block>) {
    && (forall i :: 0 <= i < |blocks| ==> blocks[i].moment > 0)
    && (forall i, j :: 0 <= i < j < |blocks| ==> blocks[i].moment < blocks[j].moment)
  }

  /** With strictly increasing positive moments, `note_processing` never fails. */
  lemma {:induction false} StrictRunNeverFails(blocks: seq<Block>)
    requires StrictMoments(blocks)
    ensures Execute(EMPTY, blocks).Some?
    ensures Execute(EMPTY, blocks).value.processedUpTo <= if blocks == [] then 0 else blocks[|blocks| - 1].moment
  {
    if |blocks| > 0 {
      StrictRunNeverFails(blocks[..|blocks| - 1]);
    }
  }

  /** The loss in numbers: two blocks, the second of which releases, lose the second block's entry. */
  lemma OwnEntryIsLost(p: Producer, q: Producer)
    ensures
      var blocks := [Block(1, false, Some(Entry(1, p))), Block(2, true, Some(Entry(2, q)))];
      var l := Execute(EMPTY, blocks);
      && l.Some?
      && l.value.released == [[Entry(1, p)]]
      && l.value.lost == [[Entry(2, q)]]
      && l.value.log == []
  {
    var blocks := [Block(1, false, Some(Entry(1, p))), Block(2, true, Some(Entry(2, q)))];
    assert blocks[..1] == [blocks[0]] && [blocks[0]][..0] == [];
    var l1 := Ledger([Entry(1, p)], 0, [Entry(1, p)], [], []);
    assert EMPTY.log + OwnEntry(blocks[0]) == l1.log;
    assert ExecuteBlock(EMPTY, blocks[0]) == Some(l1);
    assert Execute(EMPTY, []) == Some(EMPTY);
    assert Execute(EMPTY, [blocks[0]]) == Some(l1);
    WholeLogIsPrefix(l1.log, 2);
    LostIsOwnEntry(l1, blocks[1]);
  }

  /** The participation pallet on top of the log. */
  class ParticipationPallet {
    const log: Log
    var processedUpTo: nat

    constructor ()
      ensures fresh(log) && log.entries == [] && processedUpTo == 0
    {
      log := new Log();
      processedUpTo := 0;
    }

    method NoteProcessing(upToMoment: nat) returns (ok: bool)
      modifies this, log
      ensures ok == (old(processedUpTo) < upToMoment)
      ensures ok ==> processedUpTo == upToMoment
      ensures ok ==> exists pos :: 0 <= pos <= |old(log.entries)| && log.entries == old(log.entries)[pos..]
      ensures ok && Sorted(old(log.entries)) ==>
                log.entries == old(log.entries)[PrefixLength(old(log.entries), upToMoment)..]
      ensures !ok ==> processedUpTo == old(processedUpTo) && log.entries == old(log.entries)
    {
      if processedUpTo >= upToMoment {
        return false;
      }
      log.DropPrefix(upToMoment);
      processedUpTo := upToMoment;
      return true;
    }

    /** Data provider on the parent state, then the block: the log's hook and the inherent. What is released and whether
        the block is accepted is as specified on any log, and so is what remains if the log is sorted; on any other
        log a front part is removed. */
    method RunBlock(b: Block) returns (ok: bool, batch: seq<Entry>)
      modifies this, log
      ensures
        var l := old(Ledger(log.entries, processedUpTo, [], [], []));
        var l' := ExecuteBlock(l, b);
        && batch == BlocksToProcess(l, b)
        && ok == l'.Some?
        && (ok ==> processedUpTo == l'.value.processedUpTo)
        && (ok && Sorted(l.log + OwnEntry(b)) ==> log.entries == l'.value.log)
      ensures ok ==> exists pos :: 0 <= pos <= |old(log.entries) + OwnEntry(b)| &&
                                   log.entries == (old(log.entries) + OwnEntry(b))[pos..]
    {
      batch := [];
      if b.release {
        batch := log.PeekPrefix(b.moment);
      }
      log.OnInitialize(if b.own.Some? then Some(b.own.value.producer) else None,
                       if b.own.Some? then Some(b.own.value.moment) else None);
      ok := true;
      assert log.entries == (old(log.entries) + OwnEntry(b))[0..];
      if batch != [] {
        ok := NoteProcessing(b.moment);
      }
    }
  }
}
