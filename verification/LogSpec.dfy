/**
 * The replicated log as one value: what RaftLog presents over its two tiers
 * (raft-kv/raft/raft_log.h:122-140). Everything up to base has been folded into a snapshot; the
 * term at base is kept for matching.
 */
module LogSpec {
  import opened Proto
  import opened Sizes

  /** A snapshot's data stands for the entries whose effects it contains. */
  datatype Snapshot = Snapshot(index: nat, term: Term, data: seq<Entry>)

  /** Entry numbers are consecutive from first on. */
  ghost predicate Numbered(entries: seq<Entry>, first: nat) {
    forall i | 0 <= i < |entries| :: entries[i].index == first + i
  }

  datatype Log = Log(base: nat, baseTerm: Term, entries: seq<Entry>) {
    ghost predicate Valid() { Numbered(entries, base + 1) }

    function First(): nat { base + 1 }

    function Last(): nat { base + |entries| }

    predicate Holds(i: nat) { base < i <= Last() }

    function At(i: nat): Entry
      requires Holds(i)
    {
      entries[i - base - 1]
    }

    /** RaftLog::term: 0 outside the log, with no error. */
    function TermAt(i: nat): Term {
      if i == base then baseTerm else if Holds(i) then At(i).term else 0
    }

    /** The entries with low <= index < high. */
    function Slice(low: nat, high: nat): seq<Entry>
      requires base < low <= high <= Last() + 1
    {
      entries[low - base - 1..high - base - 1]
    }

    /** The first entry the log does not hold; 0 if it holds them all. */
    function FindConflict(ents: seq<Entry>): nat {
      if ents == [] then 0
      else if TermAt(ents[0].index) != ents[0].term then ents[0].index
      else FindConflict(ents[1..])
    }

    /** Cut the log before the first of ents and put them there. */
    function Append(ents: seq<Entry>): Log
      requires ents != [] ==> base < ents[0].index <= Last() + 1
    {
      if ents == [] then this else this.(entries := entries[..ents[0].index - base - 1] + ents)
    }

    /** What storage keeps of ents: entries at or below the base are already in the snapshot. */
    function Overwrite(ents: seq<Entry>): Log
      requires ents != [] ==> ents[0].index <= Last() + 1
    {
      if ents == [] || ents[0].index + |ents| - 1 <= base then this
      else if ents[0].index <= base then this.(entries := ents[base + 1 - ents[0].index..])
      else Append(ents)
    }

    function Compacted(k: nat): Log
      requires base <= k <= Last()
    {
      Log(k, TermAt(k), entries[k - base..])
    }

    static function Restored(s: Snapshot): Log { Log(s.index, s.term, []) }
  }

  /** Append, entry by entry. */
  lemma AppendAt(log: Log, ents: seq<Entry>, i: nat)
    requires log.Valid() && ents != [] && Numbered(ents, ents[0].index)
    requires log.base < ents[0].index <= log.Last() + 1
    ensures log.Append(ents).Valid()
    ensures log.Append(ents).Last() == ents[|ents| - 1].index
    ensures log.Append(ents).Holds(i) <==> log.base < i <= ents[|ents| - 1].index
    ensures i < ents[0].index ==> log.Append(ents).TermAt(i) == log.TermAt(i)
    ensures log.base < i < ents[0].index ==> log.Append(ents).At(i) == log.At(i)
    ensures ents[0].index <= i <= ents[|ents| - 1].index ==>
      log.Append(ents).At(i) == ents[i - ents[0].index]
  {
  }

  /** Overwrite, entry by entry: the new entries win, and what lies before them stays. */
  lemma OverwriteAt(log: Log, ents: seq<Entry>, i: nat)
    requires log.Valid() && ents != [] && Numbered(ents, ents[0].index)
    requires ents[0].index <= log.Last() + 1
    ensures log.Overwrite(ents).Valid() && log.Overwrite(ents).base == log.base
    ensures ents[|ents| - 1].index > log.base ==> log.Overwrite(ents).Last() == ents[|ents| - 1].index
    ensures log.base < i <= ents[|ents| - 1].index ==>
      && log.Overwrite(ents).Holds(i)
      && log.Overwrite(ents).At(i) == if i < ents[0].index then log.At(i) else ents[i - ents[0].index]
    ensures ents[|ents| - 1].index <= log.base ==> log.Overwrite(ents) == log
  {
  }

  lemma CompactedAt(log: Log, k: nat, i: nat)
    requires log.Valid() && log.base <= k <= log.Last()
    ensures log.Compacted(k).Valid() && log.Compacted(k).base == k && log.Compacted(k).Last() == log.Last()
    ensures i >= k ==> log.Compacted(k).TermAt(i) == log.TermAt(i)
    ensures log.Compacted(k).Holds(i) <==> k < i <= log.Last()
    ensures k < i <= log.Last() ==> log.Compacted(k).At(i) == log.At(i)
  {
  }

  /** find_conflict returns 0 or the least index at which the log and the new entries differ. */
  lemma {:induction false} ConflictIsFirst(log: Log, ents: seq<Entry>, first: nat)
    requires Numbered(ents, first) && first > 0
    ensures var ci := log.FindConflict(ents);
      && (ci == 0 <==> forall i | 0 <= i < |ents| :: log.TermAt(ents[i].index) == ents[i].term)
      && (ci != 0 ==>
            && first <= ci < first + |ents|
            && log.TermAt(ci) != ents[ci - first].term
            && forall i | 0 <= i < ci - first :: log.TermAt(ents[i].index) == ents[i].term)
    decreases |ents|
  {
    if ents != [] && log.TermAt(ents[0].index) == ents[0].term {
      var rest := ents[1..];
      forall i | 0 <= i < |rest| ensures rest[i].index == first + 1 + i {
        assert rest[i] == ents[i + 1];
      }
      ConflictIsFirst(log, rest, first + 1);
      var ci := log.FindConflict(rest);
      assert forall i | 0 < i < |ents| :: ents[i] == rest[i - 1];
      if ci == 0 {
        forall i | 0 <= i < |ents| ensures log.TermAt(ents[i].index) == ents[i].term {
          if i > 0 {
            assert rest[i - 1] == ents[i];
          }
        }
      } else {
        assert rest[ci - first - 1] == ents[ci - first];
        forall i | 0 <= i < ci - first ensures log.TermAt(ents[i].index) == ents[i].term {
          if i > 0 {
            assert rest[i - 1] == ents[i];
          }
        }
      }
    }
  }

  /** The log with its two cursors. pending says that the base is a snapshot not yet saved. */
  datatype LogState = LogState(log: Log, pending: bool, committed: nat, applied: nat) {
    ghost predicate Valid() {
      && log.Valid()
      && log.base <= committed <= log.Last()
      && applied <= committed
      && (pending ==> applied < log.base)
    }

    // -------------------------------------------------------------- what callers must respect

    /** No gap and no cut at or below the commit index: otherwise append throws. */
    predicate CanAppend(ents: seq<Entry>) {
      ents != [] ==> committed < ents[0].index <= log.Last() + 1
    }

    predicate CanCommit(k: nat) { k <= committed || k <= log.Last() }

    predicate Matches(index: nat, logTerm: Term) { log.TermAt(index) == logTerm }

    predicate CanMaybeAppend(index: nat, logTerm: Term, commit: nat, ents: seq<Entry>) {
      Matches(index, logTerm) ==>
        && var ci := log.FindConflict(ents);
           && (ci == 0 || (index < ci <= index + |ents| && committed < ci <= log.Last() + 1))
           && Min(commit, index + |ents|) <= Max(committed, Merged(index, ents).Last())
    }

    // -------------------------------------------------------------- operations

    function Append(ents: seq<Entry>): LogState
      requires CanAppend(ents) && log.base <= committed
    {
      this.(log := log.Append(ents))
    }

    function CommitTo(k: nat): LogState { this.(committed := Max(committed, k)) }

    /** The log after an accepted append: only entries from the first conflict on are replaced. */
    function Merged(index: nat, ents: seq<Entry>): Log {
      var ci := log.FindConflict(ents);
      if index < ci <= index + |ents| && log.base < ents[ci - index - 1].index <= log.Last() + 1
      then log.Append(ents[ci - index - 1..]) else log
    }

    /** RaftLog::maybe_append. */
    function MaybeAppend(index: nat, logTerm: Term, commit: nat, ents: seq<Entry>): LogState {
      if Matches(index, logTerm)
      then this.(log := Merged(index, ents), committed := Max(committed, Min(commit, index + |ents|)))
      else this
    }

    function MaybeCommit(k: nat, term: Term): LogState {
      if k > committed && log.TermAt(k) == term then this.(committed := k) else this
    }

    function Restore(s: Snapshot): LogState {
      LogState(Log.Restored(s), true, s.index, applied)
    }

    /** Where the next batch of committed entries starts. */
    function NextIndex(): nat { Max(applied + 1, log.First()) }

    ghost function NextEntries(max: nat): seq<Entry>
      requires Valid()
    {
      Limited(log.Slice(NextIndex(), committed + 1), max)
    }

    /** What a Ready hands over moves the apply cursor (ready.cpp:41-50, node.cpp:168-171). */
    ghost function Cursor(max: nat): nat
      requires Valid()
    {
      if NextEntries(max) != [] then NextEntries(max)[|NextEntries(max)| - 1].index
      else if pending then log.base else applied
    }
  }

  /** There is a batch to hand out exactly if something committed lies behind the cursor. */
  lemma SomethingNext(s: LogState, max: nat)
    requires s.Valid()
    ensures s.NextEntries(max) != [] <==> s.committed + 1 > s.NextIndex()
  {
    hide *;
    NextIs(s, max);
    SliceLength(s.log, s.NextIndex(), s.committed + 1);
    LimitedIsEmpty(s.log.Slice(s.NextIndex(), s.committed + 1), max);
  }

  lemma NextIs(s: LogState, max: nat)
    requires s.Valid()
    ensures s.log.base < s.NextIndex() <= s.committed + 1 <= s.log.Last() + 1
    ensures s.NextEntries(max) == Limited(s.log.Slice(s.NextIndex(), s.committed + 1), max)
  {
    hide Limited;
  }

  lemma SuffixNumbered(ents: seq<Entry>, first: nat, k: nat)
    requires Numbered(ents, first) && k <= |ents|
    ensures Numbered(ents[k..], first + k)
  {
    forall i | 0 <= i < |ents| - k ensures ents[k..][i].index == first + k + i {
      assert ents[k..][i] == ents[k + i];
    }
  }

  /** With well-numbered entries, merging is appending what comes from the conflict on. */
  lemma MergedIsAppend(s: LogState, index: nat, ents: seq<Entry>)
    requires Numbered(ents, index + 1) && s.log.base <= s.committed
    requires var ci := s.log.FindConflict(ents);
      ci == 0 || (index < ci <= index + |ents| && s.committed < ci <= s.log.Last() + 1)
    ensures var ci := s.log.FindConflict(ents);
      && (ci == 0 ==> s.Merged(index, ents) == s.log)
      && (ci != 0 ==>
            && var kept := ents[ci - index - 1..];
               kept != [] && kept[0].index == ci && Numbered(kept, ci) && s.Merged(index, ents) == s.log.Append(kept))
  {
    hide Log.FindConflict, Log.Append, Log.TermAt;
    var ci := s.log.FindConflict(ents);
    if ci != 0 {
      SuffixNumbered(ents, index + 1, ci - index - 1);
    }
  }

  /** A non-empty prefix of a slice is a slice, and its last number says where it ends. */
  lemma PrefixOfSlice(log: Log, low: nat, high: nat, r: seq<Entry>)
    requires log.Valid() && log.base < low <= high <= log.Last() + 1
    requires r <= log.Slice(low, high)
    ensures r == log.Slice(low, low + |r|)
    ensures r != [] ==> r[|r| - 1].index == low + |r| - 1
    ensures r != [] ==> r[0].index == low
  {
    var s := log.Slice(low, high);
    assert forall i | 0 <= i < |r| :: r[i] == s[i];
    assert forall i | 0 <= i < |s| :: s[i].index == low + i;
  }

  lemma SliceSuffix(log: Log, low: nat, mid: nat, high: nat)
    requires log.base < low <= mid <= high <= log.Last() + 1
    ensures log.Slice(low, high)[mid - low..] == log.Slice(mid, high)
  {
  }

  lemma SliceLength(log: Log, low: nat, high: nat)
    requires log.base < low <= high <= log.Last() + 1
    ensures |log.Slice(low, high)| == high - low
  {
  }

  lemma SliceNumbered(log: Log, low: nat, high: nat)
    requires log.Valid() && log.base < low <= high <= log.Last() + 1
    ensures Numbered(log.Slice(low, high), low)
  {
  }

  lemma CursorInRange(s: LogState, max: nat)
    requires s.Valid()
    ensures s.applied <= s.Cursor(max) <= s.committed
    ensures s.pending ==> s.log.base <= s.Cursor(max)
    ensures |s.NextEntries(max)| == Max(s.Cursor(max) + 1, s.NextIndex()) - s.NextIndex()
    ensures s.NextEntries(max) == s.log.Slice(s.NextIndex(), s.NextIndex() + |s.NextEntries(max)|)
    ensures s.NextEntries(max) == [] <==> s.NextIndex() == s.committed + 1
  {
    PrefixOfSlice(s.log, s.NextIndex(), s.committed + 1, s.NextEntries(max));
    assert s.NextEntries(max) == [] ==> |s.log.Slice(s.NextIndex(), s.committed + 1)| == 0;
  }
}
