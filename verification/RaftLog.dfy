/**
 * One log over two tiers (raft-kv/raft/raft_log.cpp). Every operation is tied to the same
 * operation on the single value State().
 */
module RaftLog {
  import opened Proto
  import opened Sizes
  import opened LogSpec
  import opened Storage
  import opened UnstableLog

  /** The log that storage and the volatile tier make together. */
  ghost function Joined(stored: Log, snapshot: Option<Snapshot>, offset: nat, entries: seq<Entry>): Log
    requires snapshot.None? ==> stored.base < offset <= stored.Last() + 1
  {
    if snapshot.Some? then Log(snapshot.value.index, snapshot.value.term, entries)
    else stored.(entries := stored.entries[..offset - stored.base - 1] + entries)
  }

  /** How the tiers meet between Ready cycles. */
  ghost predicate Meet(stored: Log, snapshot: Option<Snapshot>, offset: nat, entries: seq<Entry>) {
    && stored.Valid() && Numbered(entries, offset)
    && (snapshot.Some? ==> offset == snapshot.value.index + 1)
    && (snapshot.None? ==>
          && stored.base < offset <= stored.Last() + 1
          && (entries == [] ==> offset == stored.Last() + 1))
  }

  lemma JoinedIsValid(stored: Log, snapshot: Option<Snapshot>, offset: nat, entries: seq<Entry>)
    requires Meet(stored, snapshot, offset, entries)
    ensures Joined(stored, snapshot, offset, entries).Valid()
    ensures Joined(stored, snapshot, offset, entries).Last() == offset + |entries| - 1
  {
  }

  /** Appending to the volatile tier appends to the joined log. */
  lemma JoinedAppend(stored: Log, snapshot: Option<Snapshot>, offset: nat, entries: seq<Entry>, ents: seq<Entry>,
                     offset': nat, entries': seq<Entry>)
    requires Meet(stored, snapshot, offset, entries)
    requires ents != [] && Numbered(ents, ents[0].index)
    requires Joined(stored, snapshot, offset, entries).base < ents[0].index <= offset + |entries|
    requires offset' == Min(offset, ents[0].index)
    requires entries' == entries[..ents[0].index - offset'] + ents
    ensures Meet(stored, snapshot, offset', entries')
    ensures Joined(stored, snapshot, offset', entries')
      == Joined(stored, snapshot, offset, entries).Append(ents)
  {
    var whole := Joined(stored, snapshot, offset, entries);
    var whole' := Joined(stored, snapshot, offset', entries');
    var k := ents[0].index;
    if snapshot.Some? {
      assert whole'.entries == whole.entries[..k - whole.base - 1] + ents;
    } else if k <= offset {
      assert entries[..k - offset'] == [];
      assert whole.entries[..k - stored.base - 1] == stored.entries[..k - stored.base - 1];
    } else {
      assert whole.entries[..k - stored.base - 1] == stored.entries[..offset - stored.base - 1] + entries[..k - offset];
    }
  }

  /** Saving the volatile tier makes storage hold the whole log. */
  lemma SavedIsJoined(stored: Log, offset: nat, entries: seq<Entry>)
    requires Meet(stored, None, offset, entries)
    ensures entries != [] ==> entries[0].index <= stored.Last() + 1
    ensures stored.Overwrite(entries) == Joined(stored, None, offset, entries)
  {
    if entries == [] {
      assert stored.entries[..offset - stored.base - 1] == stored.entries;
    }
  }

  /** The joined log between two indexes: a part from storage, then a part from the volatile tier. */
  lemma SplitSlice(stored: Log, snapshot: Option<Snapshot>, offset: nat, entries: seq<Entry>, low: nat, high: nat)
    requires Meet(stored, snapshot, offset, entries)
    requires Joined(stored, snapshot, offset, entries).base < low <= high <= offset + |entries|
    ensures snapshot.Some? ==> low >= offset
    ensures snapshot.None? ==> stored.base < low
    ensures low < offset ==> Min(high, offset) <= stored.Last() + 1
    ensures low < offset ==>
      Joined(stored, snapshot, offset, entries).Slice(low, high)
      == stored.Slice(low, Min(high, offset)) + (if high > offset then entries[..high - offset] else [])
    ensures low >= offset ==>
      Joined(stored, snapshot, offset, entries).Slice(low, high) == entries[low - offset..high - offset]
  {
    var whole := Joined(stored, snapshot, offset, entries);
    if snapshot.None? && low < offset {
      var lo, mid := low - stored.base - 1, offset - stored.base - 1;
      assert whole.entries == stored.entries[..mid] + entries;
      if high > offset {
        assert whole.Slice(low, high) == stored.entries[lo..mid] + entries[..high - offset];
      } else {
        assert whole.Slice(low, high) == stored.Slice(low, high);
      }
    } else {
      assert whole.Slice(low, high) == entries[low - offset..high - offset];
    }
  }

  lemma WholePrefix(r: seq<Entry>, s: seq<Entry>)
    requires r <= s && |r| >= |s|
    ensures r == s
  {
  }

  class RaftLog {
    const storage: MemoryStorage
    const unstable: Unstable
    const maxNextSize: nat
    var committed: nat
    var applied: nat
    /** The commit index when the last Ready was done with. What was committed then is never volatile again. */
    ghost var floor: nat

    /** Each tier on its own, and how they meet. */
    ghost predicate TiersOk()
      reads this, storage, unstable
    {
      && storage.Valid() && Meet(storage.Abs(), unstable.snapshot, unstable.offset, unstable.entries)
      && floor <= committed && floor < unstable.offset
    }

    ghost function Abs(): Log
      requires TiersOk()
      reads this, storage, unstable
    {
      Joined(storage.Abs(), unstable.snapshot, unstable.offset, unstable.entries)
    }

    ghost function State(): LogState
      requires TiersOk()
      reads this, storage, unstable
    {
      LogState(Abs(), unstable.snapshot.Some?, committed, applied)
    }

    ghost predicate Valid()
      reads this, storage, unstable
    {
      TiersOk() && State().Valid()
    }

    /** raft_log.cpp:7-25: both cursors start at the last compaction. */
    constructor (storage: MemoryStorage, maxNextSize: nat)
      requires storage.Valid()
      ensures Valid() && fresh(unstable) && this.storage == storage && this.maxNextSize == maxNextSize
      ensures State() == LogState(storage.Abs(), false, storage.Abs().base, storage.Abs().base)
      ensures unstable.entries == [] && floor == committed
    {
      this.storage := storage;
      this.maxNextSize := maxNextSize;
      var first := storage.FirstIndex();
      var last := storage.LastIndex();
      unstable := new Unstable(last + 1);
      committed := first - 1;
      applied := first - 1;
      floor := first - 1;
      new;
      SavedIsJoined(storage.Abs(), unstable.offset, unstable.entries);
    }

    // -------------------------------------------------------------- queries

    method FirstIndex() returns (index: nat)
      requires TiersOk()
      ensures index == Abs().First()
    {
      var i := unstable.MaybeFirstIndex();
      if i.Some? {
        return i.value;
      }
      index := storage.FirstIndex();
    }

    method LastIndex() returns (index: nat)
      requires TiersOk()
      ensures index == Abs().Last()
    {
      var i := unstable.MaybeLastIndex();
      if i.Some? {
        return i.value;
      }
      index := storage.LastIndex();
    }

    /** raft_log.cpp:216-238. Storage is only asked for what it has, so no error ever comes back. */
    method Term(index: nat) returns (r: Result<Proto.Term>)
      requires TiersOk()
      ensures r == Ok(Abs().TermAt(index))
    {
      var first := FirstIndex();
      var last := LastIndex();
      if index < first - 1 || index > last {
        return Ok(0);
      }
      var t := unstable.MaybeTerm(index);
      if t.Some? {
        return Ok(t.value);
      }
      r := storage.Term(index);
    }

    method MatchTerm(index: nat, t: Proto.Term) returns (ok: bool)
      requires TiersOk()
      ensures ok == State().Matches(index, t)
    {
      var r := Term(index);
      if r.Err? {
        return false;
      }
      return t == r.value;
    }

    method LastTerm() returns (t: Proto.Term)
      requires TiersOk()
      ensures t == Abs().TermAt(Abs().Last())
    {
      var last := LastIndex();
      var r := Term(last);
      t := r.value;
    }

    /** raft_log.h:72-75. */
    method IsUpToDate(lasti: nat, term: Proto.Term) returns (ok: bool)
      requires TiersOk()
      ensures ok <==>
        || term > Abs().TermAt(Abs().Last())
        || (term == Abs().TermAt(Abs().Last()) && lasti >= Abs().Last())
    {
      var lt := LastTerm();
      var last := LastIndex();
      ok := term > lt || (term == lt && lasti >= last);
    }

    method FindConflict(ents: seq<Entry>) returns (ci: nat)
      requires TiersOk()
      ensures ci == Abs().FindConflict(ents)
    {
      var i := 0;
      while i < |ents|
        invariant 0 <= i <= |ents|
        invariant Abs().FindConflict(ents) == Abs().FindConflict(ents[i..])
      {
        var ok := MatchTerm(ents[i].index, ents[i].term);
        if !ok {
          return ents[i].index;
        }
        assert ents[i..][1..] == ents[i + 1..];
        i := i + 1;
      }
      return 0;
    }

    /**
     * raft_log.cpp:153-184. Limiting the storage part first and the whole afterwards is the same
     * as limiting the slice of the joined log once.
     */
    method Slice(low: nat, high: nat, max: nat) returns (r: Result<seq<Entry>>)
      requires TiersOk() && low <= high <= Abs().Last() + 1
      ensures low < Abs().First() <==> r == Err(Compacted)
      ensures low >= Abs().First() ==> r.Ok? && IsLimited(Abs().Slice(low, high), max, r.value)
    {
      hide EntrySize, Total, Joined, Numbered;
      var first := FirstIndex();
      if low < first {
        return Err(Compacted);
      }
      JoinedIsValid(storage.Abs(), unstable.snapshot, unstable.offset, unstable.entries);
      if low == high {
        return Ok([]);
      }
      SplitSlice(storage.Abs(), unstable.snapshot, unstable.offset, unstable.entries, low, high);
      ghost var whole := Abs().Slice(low, high);
      var out := [];
      if low < unstable.offset {
        var mid := Min(high, unstable.offset);
        ghost var stored := storage.Abs().Slice(low, mid);
        r := storage.Entries(low, mid, max);
        if r.Err? {
          assert false;
          return;
        }
        out := r.value;
        if |out| < mid - low {
          LimitedEarly(stored, if high > unstable.offset then unstable.entries[..high - unstable.offset] else [], max, out);
          return Ok(out);
        }
        WholePrefix(out, stored);
      }
      if high > unstable.offset {
        var more := unstable.Slice(Max(low, unstable.offset), high);
        out := out + more;
      }
      assert out == whole;
      out := LimitSize(max, out);
      return Ok(out);
    }

    /** raft_log.h:97-102. */
    method Entries(index: nat, max: nat) returns (r: Result<seq<Entry>>)
      requires TiersOk()
      ensures index > Abs().Last() ==> r == Ok([])
      ensures index < Abs().First() && index <= Abs().Last() ==> r == Err(Compacted)
      ensures Abs().First() <= index <= Abs().Last() ==>
        r.Ok? && IsLimited(Abs().Slice(index, Abs().Last() + 1), max, r.value)
    {
      var last := LastIndex();
      if index > last {
        return Ok([]);
      }
      r := Slice(index, last + 1, max);
    }

    method HasNextEntries() returns (b: bool)
      requires Valid()
      ensures b == (committed + 1 > State().NextIndex())
      ensures b <==> State().NextEntries(maxNextSize) != []
    {
      hide IsLimited, Limited, Joined, Numbered, Meet, Log.Slice, LogState.NextEntries;
      var first := FirstIndex();
      b := committed + 1 > Max(applied + 1, first);
      SomethingNext(State(), maxNextSize);
    }

    /** raft_log.cpp:94-102. */
    method NextEntries() returns (ents: seq<Entry>)
      requires Valid()
      ensures ents == State().NextEntries(maxNextSize)
    {
      hide IsLimited, Limited, Joined, Numbered, Meet, Log.TermAt, Log.Slice;
      var first := FirstIndex();
      var off := Max(applied + 1, first);
      ents := [];
      if committed + 1 > off {
        var r := Slice(off, committed + 1, maxNextSize);
        ents := r.value;
      } else {
        NothingIsLimited(maxNextSize);
        SliceLength(Abs(), off, committed + 1);
      }
      LimitedIsUnique(Abs().Slice(off, committed + 1), maxNextSize, ents, State().NextEntries(maxNextSize));
    }

    /** raft_log.cpp:129-141. */
    method LatestSnapshot() returns (s: Snapshot)
      ensures s == if unstable.snapshot.Some? then unstable.snapshot.value else storage.snapshot
    {
      if unstable.snapshot.Some? {
        return unstable.snapshot.value;
      }
      return storage.snapshot;
    }

    // -------------------------------------------------------------- changes

    method CommitTo(k: nat)
      requires TiersOk() && State().CanCommit(k)
      modifies this`committed
      ensures TiersOk() && State() == old(State()).CommitTo(k)
    {
      if committed < k {
        committed := k;
      }
    }

    method MaybeCommit(k: nat, term: Proto.Term) returns (changed: bool)
      requires TiersOk() && (State().log.TermAt(k) == term ==> State().CanCommit(k))
      modifies this`committed
      ensures TiersOk() && State() == old(State()).MaybeCommit(k, term)
      ensures changed == (old(committed) < k && old(State()).log.TermAt(k) == term)
    {
      if k > committed {
        var t := Term(k);
        if t.value == term {
          CommitTo(k);
          return true;
        }
      }
      return false;
    }

    method Append(ents: seq<Entry>) returns (last: nat)
      requires TiersOk() && State().log.base <= committed
      requires State().CanAppend(ents)
      requires ents != [] ==> Numbered(ents, ents[0].index)
      modifies unstable
      ensures TiersOk() && State() == old(State()).Append(ents) && last == Abs().Last()
      ensures unstable.snapshot == old(unstable.snapshot)
    {
      if ents != [] {
        JoinedAppend(storage.Abs(), unstable.snapshot, unstable.offset, unstable.entries, ents,
          Min(unstable.offset, ents[0].index),
          unstable.entries[..ents[0].index - Min(unstable.offset, ents[0].index)] + ents);
        unstable.TruncateAndAppend(ents);
      }
      last := LastIndex();
    }

    /** raft_log.cpp:30-60; the result is 0 when the entries do not fit on. */
    method MaybeAppend(index: nat, logTerm: Proto.Term, commit: nat, ents: seq<Entry>)
      returns (lastNew: nat, ok: bool)
      requires TiersOk() && State().log.base <= committed
      requires Numbered(ents, index + 1)
      requires State().CanMaybeAppend(index, logTerm, commit, ents)
      modifies this`committed, unstable
      ensures TiersOk() && State() == old(State()).MaybeAppend(index, logTerm, commit, ents)
      ensures ok == old(State()).Matches(index, logTerm)
      ensures lastNew == if ok then index + |ents| else 0
      ensures unstable.snapshot == old(unstable.snapshot)
    {
      hide Log.FindConflict, Numbered, Log.Append, Meet, Joined;
      ok := MatchTerm(index, logTerm);
      if !ok {
        return 0, false;
      }
      lastNew := index + |ents|;
      var ci := FindConflict(ents);
      ghost var st := State();
      MergedIsAppend(st, index, ents);
      if ci != 0 {
        var _ := Append(ents[ci - index - 1..]);
      }
      assert State() == st.(log := st.Merged(index, ents));
      CommitTo(Min(commit, lastNew));
    }

    method Restore(s: Snapshot)
      requires TiersOk() && floor <= s.index
      modifies this`committed, unstable
      ensures TiersOk() && State() == old(State()).Restore(s) && unstable.snapshot == Some(s)
    {
      committed := s.index;
      unstable.Restore(s);
    }

    /** raft_log.cpp:143-151: an index out of range is only logged. */
    method AppliedTo(index: nat)
      modifies this`applied
      ensures applied == if index == 0 then old(applied) else index
    {
      if index == 0 {
        return;
      }
      applied := index;
    }
  }
}
