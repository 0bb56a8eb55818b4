/** The block production log: appended to in every block, read by prefix in one way and removed in another. */
module ProductionLog {
  import opened Prelude

  type Producer(==, !new)

  datatype Entry = Entry(moment: nat, producer: Producer)

  ghost predicate Sorted(log: seq<Entry>) {
    forall i, j :: 0 <= i < j < |log| ==> log[i].moment <= log[j].moment
  }

  /** Number of leading entries up to `moment`, inclusive. */
  function PrefixLength(log: seq<Entry>, moment: nat): (n: nat)
    ensures n <= |log|
    ensures forall i :: 0 <= i < n ==> log[i].moment <= moment
    ensures n < |log| ==> log[n].moment > moment
  {
    if |log| == 0 || log[0].moment > moment then 0 else 1 + PrefixLength(log[1..], moment)
  }

  /** In a sorted log any split between early and late entries is the prefix. */
  lemma PrefixLengthIs(log: seq<Entry>, moment: nat, n: nat)
    requires Sorted(log) && n <= |log|
    requires forall i :: 0 <= i < n ==> log[i].moment <= moment
    requires n < |log| ==> log[n].moment > moment
    ensures PrefixLength(log, moment) == n
  {
  }

  class Log {
    var entries: seq<Entry>

    constructor ()
      ensures entries == []
    {
      entries := [];
    }

    /** Appends the block's entry when both its author and its moment are known. */
    method OnInitialize(author: Option<Producer>, moment: Option<nat>)
      modifies this
      ensures entries == old(entries) +
                         (if author.Some? && moment.Some? then [Entry(moment.value, author.value)] else [])
    {
      if author.None? {
        return;
      }
      if moment.None? {
        return;
      }
      entries := entries + [Entry(moment.value, author.value)];
    }

    /** Binary search for the end of the prefix, as `partition_point` does it. On an unsorted log the
        result is some position in range. */
    method PartitionPoint(moment: nat) returns (pos: nat)
      ensures pos <= |entries|
      ensures Sorted(entries) ==> pos == PrefixLength(entries, moment)
    {
      var left, right := 0, |entries|;
      while left < right
        invariant left <= right <= |entries|
        invariant Sorted(entries) ==> forall i :: 0 <= i < left ==> entries[i].moment <= moment
        invariant Sorted(entries) ==> forall i :: right <= i < |entries| ==> entries[i].moment > moment
      {
        var mid := left + (right - left) / 2;
        if entries[mid].moment <= moment {
          left := mid + 1;
        } else {
          right := mid;
        }
      }
      pos := left;
      if Sorted(entries) {
        PrefixLengthIs(entries, moment, pos);
      }
    }

    method TakePrefix(moment: nat) returns (taken: seq<Entry>)
      modifies this
      ensures taken + entries == old(entries)
      ensures Sorted(old(entries)) ==> taken == old(entries)[..PrefixLength(old(entries), moment)]
    {
      var pos := PartitionPoint(moment);
      taken := entries[..pos];
      entries := entries[pos..];
    }

    /** Reads entries one by one until the first late one. */
    method PeekPrefix(moment: nat) returns (peeked: seq<Entry>)
      ensures peeked == entries[..PrefixLength(entries, moment)]
    {
      var n := 0;
      while n < |entries| && entries[n].moment <= moment
        invariant n <= |entries|
        invariant n + PrefixLength(entries[n..], moment) == PrefixLength(entries, moment)
      {
        assert entries[n..][1..] == entries[n + 1..];
        n := n + 1;
      }
      peeked := entries[..n];
    }

    method DropPrefix(moment: nat)
      modifies this
      ensures exists pos :: 0 <= pos <= |old(entries)| && entries == old(entries)[pos..]
      ensures Sorted(old(entries)) ==> entries == old(entries)[PrefixLength(old(entries), moment)..]
    {
      var pos := PartitionPoint(moment);
      entries := entries[pos..];
    }
  }
}
