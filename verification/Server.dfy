/**
 * One round of the server's Ready loop (raft-kv/server/raft_node.cpp): save what is new, publish what
 * is committed, snapshot and compact now and then, and tell the log. The loop itself, and what it
 * writes to the log file, is in module ReadyLoop; sending the messages is the network's part.
 */
module Server {
  import opened Proto
  import opened Sizes
  import opened LogSpec
  import opened Storage
  import opened UnstableLog
  import opened RaftLog
  import opened Apply

  const SNAP_COUNT: nat := 100000
  const CATCH_UP: nat := 100000

  datatype Ready = Ready(entries: seq<Entry>, snapshot: Option<Snapshot>, committed: seq<Entry>) {
    /** ready.cpp:41-50. */
    function AppliedCursor(): nat {
      if committed != [] then committed[|committed| - 1].index
      else if snapshot.Some? then snapshot.value.index else 0
    }
  }

  /** A snapshot of a state machine that has absorbed store, taken when the log was as it is. */
  ghost predicate StandsFor(s: Snapshot, store: seq<Entry>, log: Log) {
    s.index <= |store| && s.data == store[..s.index] && s.term == log.TermAt(s.index)
  }

  lemma StandsForMore(s: Snapshot, store: seq<Entry>, store': seq<Entry>, log: Log, k: nat)
    requires StandsFor(s, store, log) && store <= store'
    ensures StandsFor(s, store', log)
    ensures log.Valid() && log.base <= k <= log.Last() && k <= s.index ==> StandsFor(s, store', log.Compacted(k))
  {
    assert store'[..s.index] == store[..s.index];
    if log.Valid() && log.base <= k <= log.Last() && k <= s.index {
      CompactedAt(log, k, s.index);
    }
  }

  class Server {
    const log: RaftLog
    /** Whether the payload of a configuration change can be unpacked. */
    const unpacks: seq<Byte> -> bool
    var appliedIndex: nat
    var snapshotIndex: nat
    /** The entries the state machine has absorbed; a snapshot of it stands for exactly these. */
    var store: seq<Entry>

    ghost function Mach(): Machine
      requires log.TiersOk()
      reads this, log, log.storage, log.unstable
    {
      Machine(log.State(), if log.unstable.snapshot.Some? then log.unstable.snapshot.value else NOTHING,
              appliedIndex, store)
    }

    ghost predicate Valid()
      reads this, log, log.storage, log.unstable
    {
      && log.Valid() && Mach().Good()
      && snapshotIndex == log.storage.snapshot.index
      && log.storage.Abs().base <= snapshotIndex <= appliedIndex
      && (log.unstable.snapshot == None ==> StandsFor(log.storage.snapshot, store, log.Abs()))
    }

    /** Whether publish_entries can make sense of an entry: all but garbled configuration changes. */
    predicate Decodes(e: Entry) {
      e.kind.Normal? || unpacks(e.data)
    }

    ghost predicate AllDecode()
      requires log.TiersOk()
      reads this, log, log.storage, log.unstable
    {
      forall e | e in log.Abs().entries :: Decodes(e)
    }

    /** Everything the log holds is in storage, and everything committed is in the state machine. */
    ghost predicate Settled()
      requires log.TiersOk()
      reads this, log, log.storage, log.unstable
    {
      && log.unstable.entries == [] && log.unstable.snapshot == None
      && log.storage.Abs() == log.Abs()
      && appliedIndex == log.committed
    }

    /** raft_node.cpp:358-369: the server resumes where the newest snapshot ends. */
    constructor (log: RaftLog, unpacks: seq<Byte> -> bool)
      requires log.Valid() && log.unstable.snapshot == None
      requires var s := log.storage.snapshot;
        && s.index == log.State().log.base == log.applied
        && |s.data| == s.index && Numbered(s.data, 1) && s.term == log.State().log.baseTerm
      ensures Valid() && this.log == log
      ensures appliedIndex == log.applied && snapshotIndex == log.storage.snapshot.index
      ensures store == log.storage.snapshot.data && this.unpacks == unpacks
    {
      this.log := log;
      this.unpacks := unpacks;
      snapshotIndex := log.storage.snapshot.index;
      appliedIndex := log.storage.snapshot.index;
      store := log.storage.snapshot.data;
    }

    /** ready.cpp:7-33. */
    method TakeReady() returns (rd: Ready)
      requires Valid()
      ensures rd == Ready(log.unstable.entries, log.unstable.snapshot, log.State().NextEntries(log.maxNextSize))
    {
      var batch := log.NextEntries();
      rd := Ready(log.unstable.entries, log.unstable.snapshot, batch);
    }

    /** raft_node.cpp:159-188. The snapshot is always ahead, so the throw is never reached. */
    method PublishSnapshot(s: Snapshot)
      requires s.index > appliedIndex
      modifies this
      ensures snapshotIndex == s.index && appliedIndex == s.index && store == s.data
    {
      snapshotIndex := s.index;
      appliedIndex := s.index;
      store := s.data;
    }

    /** raft_node.cpp:107-118: storage ends up holding the whole log. */
    method Save(rd: Ready)
      requires Valid() && rd.entries == log.unstable.entries && rd.snapshot == log.unstable.snapshot
      modifies this, log.storage
      ensures log.storage.Valid() && log.storage.Abs() == old(log.Abs())
      ensures appliedIndex == old(Mach().Resumed()) && store == old(Mach().ResumedStore())
      ensures snapshotIndex == log.storage.snapshot.index
      ensures snapshotIndex == if rd.snapshot.Some? then rd.snapshot.value.index else old(snapshotIndex)
      ensures log.storage.Abs().base <= snapshotIndex <= appliedIndex
      ensures StandsFor(log.storage.snapshot, store, old(log.Abs()))
    {
      hide Machine.Faithful;
      ghost var whole := log.Abs();
      if rd.snapshot.Some? {
        var _ := log.storage.ApplySnapshot(rd.snapshot.value);
        PublishSnapshot(rd.snapshot.value);
        assert log.storage.Abs().Overwrite(rd.entries) == whole;
      } else {
        SavedIsJoined(log.storage.Abs(), log.unstable.offset, log.unstable.entries);
      }
      if rd.entries != [] {
        log.storage.Append(rd.entries);
      }
    }

    /** What a batch holds beyond the cursor. */
    static function Beyond(cursor: nat, batch: seq<Entry>): seq<Entry>
      requires batch != [] ==> batch[0].index <= cursor + 1
    {
      if batch == [] || cursor + 1 >= batch[0].index + |batch| then [] else batch[cursor + 1 - batch[0].index..]
    }

    /** raft_node.cpp:302-314. */
    method EntriesToApply(entries: seq<Entry>) returns (ents: seq<Entry>)
      requires entries != [] ==> entries[0].index <= appliedIndex + 1
      ensures ents == Beyond(appliedIndex, entries)
    {
      if entries == [] {
        return [];
      }
      var first := entries[0].index;
      if appliedIndex - first + 1 < |entries| {
        return entries[appliedIndex - first + 1..];
      }
      return [];
    }

    /** raft_node.cpp:242-300. An entry that does not unpack is passed over, and the cursor with it. */
    method PublishEntries(ents: seq<Entry>)
      requires Numbered(ents, appliedIndex + 1)
      modifies this`appliedIndex, this`store
      ensures appliedIndex == CursorAfter(old(appliedIndex), ents, Decodes)
      ensures (forall e | e in ents :: Decodes(e)) ==>
        store == old(store) + ents && appliedIndex == old(appliedIndex) + |ents|
    {
      ghost var all := forall e | e in ents :: Decodes(e);
      var i := 0;
      while i < |ents|
        invariant 0 <= i <= |ents|
        invariant appliedIndex == CursorAfter(old(appliedIndex), ents[..i], Decodes)
        invariant all ==> store == old(store) + ents[..i] && appliedIndex == old(appliedIndex) + i
      {
        assert ents[..i + 1][..i] == ents[..i];
        if Decodes(ents[i]) {
          store := store + [ents[i]];
          appliedIndex := ents[i].index;
        }
        i := i + 1;
      }
      assert ents[..i] == ents;
    }

    /** raft_node.cpp:123-129. */
    method PublishBatch(batch: seq<Entry>)
      requires batch != [] ==> batch[0].index <= appliedIndex + 1
      requires Numbered(Beyond(appliedIndex, batch), appliedIndex + 1)
      requires forall e | e in Beyond(appliedIndex, batch) :: Decodes(e)
      modifies this`appliedIndex, this`store
      ensures store == old(store) + Beyond(old(appliedIndex), batch)
      ensures appliedIndex == old(appliedIndex) + |Beyond(old(appliedIndex), batch)|
    {
      hide Numbered;
      if batch != [] {
        var ents := EntriesToApply(batch);
        if ents != [] {
          PublishEntries(ents);
        }
      }
    }

    /**
     * raft_node.cpp:316-356. Neither the snapshot nor the compaction is ever refused: both throws
     * are unreachable. k is where the log now starts.
     */
    method MaybeTriggerSnapshot() returns (k: nat)
      requires log.storage.Valid() && snapshotIndex == log.storage.snapshot.index
      requires log.storage.Abs().base <= snapshotIndex <= appliedIndex <= log.storage.Abs().Last()
      requires |store| == appliedIndex && StandsFor(log.storage.snapshot, store, log.storage.Abs())
      modifies this`snapshotIndex, log.storage
      ensures log.storage.Valid()
      ensures old(log.storage.Abs()).base <= k <= appliedIndex
      ensures log.storage.Abs() == old(log.storage.Abs()).Compacted(k)
      ensures snapshotIndex == log.storage.snapshot.index
      ensures log.storage.Abs().base <= snapshotIndex <= appliedIndex
      ensures snapshotIndex != old(snapshotIndex) <==> appliedIndex - old(snapshotIndex) > SNAP_COUNT
      ensures snapshotIndex == old(snapshotIndex) ==> log.storage.Abs() == old(log.storage.Abs())
      ensures StandsFor(log.storage.snapshot, store, log.storage.Abs())
      ensures snapshotIndex != old(snapshotIndex) ==>
        && snapshotIndex == appliedIndex && k == appliedIndex - CATCH_UP
        && log.storage.snapshot == Snapshot(appliedIndex, old(log.storage.Abs()).TermAt(appliedIndex), store)
    {
      ghost var stored := log.storage.Abs();
      if appliedIndex - snapshotIndex <= SNAP_COUNT {
        k := log.storage.FirstIndex();
        k := k - 1;
        CompactNothing(stored);
        return;
      }
      var snap := log.storage.CreateSnapshot(appliedIndex, store);
      if snap.Err? {
        assert false;
      }
      k := 1;
      if appliedIndex > CATCH_UP {
        k := appliedIndex - CATCH_UP;
      }
      var done := log.storage.Compact(k);
      if done.Err? {
        assert false;
      }
      snapshotIndex := appliedIndex;
      assert store[..appliedIndex] == store;
      CompactedAt(stored, k, appliedIndex);
    }

    /** node.cpp:155-185: once everything in rd is saved and applied, the log lets go of it. */
    method Advance(rd: Ready, ghost whole: Log, ghost k: nat)
      requires rd.entries == log.unstable.entries && rd.snapshot == log.unstable.snapshot
      requires Numbered(rd.entries, log.unstable.offset)
      requires rd.snapshot.Some? ==> rd.snapshot.value.index == log.unstable.offset - 1
      requires log.storage.Valid() && whole.Valid() && whole.base <= k <= whole.Last()
      requires log.storage.Abs() == whole.Compacted(k)
      requires log.unstable.offset + |rd.entries| == whole.Last() + 1
      requires rd.snapshot.Some? ==> rd.snapshot.value.index > 0
      requires log.committed <= whole.Last()
      modifies log`applied, log`floor, log.unstable
      ensures log.TiersOk() && log.Abs() == whole.Compacted(k) && log.floor == log.committed
      ensures log.unstable.snapshot == None && log.unstable.entries == []
      ensures log.applied == if rd.AppliedCursor() > 0 then rd.AppliedCursor() else old(log.applied)
    {
      var index := rd.AppliedCursor();
      if index > 0 {
        log.AppliedTo(index);
      }
      if rd.entries != [] {
        var last := rd.entries[|rd.entries| - 1];
        log.unstable.StableTo(last.index, last.term);
      }
      if rd.snapshot.Some? {
        log.unstable.StableSnapTo(rd.snapshot.value.index);
      }
      log.floor := log.committed;
      CompactedAt(whole, k, 0);
      SavedIsJoined(log.storage.Abs(), log.unstable.offset, []);
    }

    lemma UnstableFacts()
      requires Valid()
      ensures Numbered(log.unstable.entries, log.unstable.offset)
      ensures log.unstable.offset + |log.unstable.entries| == log.Abs().Last() + 1
      ensures log.unstable.snapshot.Some? ==> log.unstable.snapshot.value.index == log.unstable.offset - 1
      ensures log.unstable.snapshot.Some? ==> log.unstable.snapshot.value.index == log.Abs().base > 0
    {
    }

    /** raft_node.cpp:105-129: save, then publish the part of the batch that is new. */
    method SaveAndPublish(rd: Ready)
      requires Valid() && AllDecode()
      requires rd.entries == log.unstable.entries && rd.snapshot == log.unstable.snapshot
      requires rd.committed == log.State().NextEntries(log.maxNextSize)
      modifies this, log.storage
      ensures log.storage.Valid() && log.storage.Abs() == old(log.Abs())
      ensures !old(Mach()).Gap(log.maxNextSize)
      ensures appliedIndex == old(Mach()).Cursor(log.maxNextSize)
      ensures store == old(Mach()).ResumedStore() + old(Mach()).News(log.maxNextSize)
      ensures snapshotIndex == log.storage.snapshot.index
      ensures snapshotIndex == if rd.snapshot.Some? then rd.snapshot.value.index else old(snapshotIndex)
      ensures log.storage.Abs().base <= snapshotIndex <= appliedIndex <= log.storage.Abs().Last()
      ensures |store| == appliedIndex && StandsFor(log.storage.snapshot, store, old(log.Abs()))
    {
      hide IsLimited, Limited, Machine.Good, LogState.NextEntries, LogState.Cursor, Log.Slice, Joined, Meet, Machine.Cursor,
        Numbered, StandsFor;
      ghost var a, max := Mach(), log.maxNextSize;
      CursorsInLog(a);
      NewsFacts(a, max);
      NewsInLog(a, max);
      ResumedLength(a);
      Save(rd);
      ghost var saved := store;
      PublishBatch(rd.committed);
      StandsForMore(log.storage.snapshot, saved, store, old(log.Abs()), 0);
    }

    /** raft_node.cpp:98-131: one whole Ready cycle, in which batch was handed out as committed. */
    method Cycle() returns (k: nat, batch: seq<Entry>)
      requires Valid() && AllDecode()
      modifies this, log`applied, log`floor, log.storage, log.unstable
      ensures Valid() && AllDecode()
      ensures old(Mach()).CanCompact(log.maxNextSize, k) && !old(Mach()).Gap(log.maxNextSize)
      ensures Mach() == old(Mach()).Cycle(log.maxNextSize, k)
      ensures batch == old(Mach()).log.NextEntries(log.maxNextSize)
      ensures log.unstable.snapshot == None && log.unstable.entries == []
      ensures log.storage.Abs() == log.Abs() && log.floor == log.committed
      ensures var marked := if old(log.unstable.snapshot).Some? then old(log.unstable.snapshot).value.index else old(snapshotIndex);
        snapshotIndex == marked || marked < snapshotIndex == appliedIndex
    {
      hide IsLimited, Limited, Machine.Faithful, LogState.NextEntries, Log.Slice, Log.Compacted, Joined, Meet,
        Machine.News, Machine.Cursor, LogState.Cursor, Numbered, StandsFor;
      ghost var a, max, whole := Mach(), log.maxNextSize, log.Abs();
      UnstableFacts();
      var rd := TakeReady();
      batch := rd.committed;
      SaveAndPublish(rd);
      CursorOfReady(a, rd, max);
      k := MaybeTriggerSnapshot();
      Advance(rd, whole, k);
      CycleKeeps(a, max, k);
      CompactedAt(whole, k, 0);
      CompactedSubset(whole, k);
    }

    /** The apply cursor the log is told of is the one the specification moves to. */
    static lemma CursorOfReady(a: Machine, rd: Ready, max: nat)
      requires a.Good() && rd.committed == a.log.NextEntries(max)
      requires rd.snapshot.Some? <==> a.log.pending
      requires rd.snapshot.Some? ==> rd.snapshot.value.index == a.log.log.base
      ensures a.log.Cursor(max) == if rd.AppliedCursor() > 0 then rd.AppliedCursor() else a.log.applied
      ensures a.log.Cursor(max) <= a.log.committed
    {
      hide IsLimited, Limited, Machine.Faithful, LogState.NextEntries, Log.Slice, Numbered;
      CursorInRange(a.log, max);
    }

    /** has_ready (node.cpp:132-153); other stands for messages, soft state and hard state. */
    method HasReady(other: bool) returns (b: bool)
      requires Valid()
      ensures b <==>
        || other || log.unstable.snapshot.Some? || log.unstable.entries != []
        || log.committed + 1 > log.State().NextIndex()
    {
      var next := log.HasNextEntries();
      b := other || log.unstable.snapshot.Some? || log.unstable.entries != [] || next;
    }

    /** What is left to do in the Ready loop. */
    ghost function Pending(other: bool): nat
      requires Valid()
      reads this, log, log.storage, log.unstable
    {
      log.committed + 1 - log.State().NextIndex()
      + (if log.unstable.snapshot.Some? || log.unstable.entries != [] then 1 else 0)
      + (if other then 1 else 0)
    }
  }

  lemma CursorsInLog(a: Machine)
    requires a.Good()
    ensures a.log.Valid() && (!a.log.pending ==> a.log.log.base <= a.cursor)
  {
  }

  lemma ResumedLength(a: Machine)
    requires a.Good()
    ensures |a.ResumedStore()| == a.Resumed()
  {
  }

  lemma NewsInLog(a: Machine, max: nat)
    requires a.Good()
    ensures !a.Gap(max)
    ensures forall e | e in a.News(max) :: e in a.log.log.entries
  {
    hide IsLimited, Limited, Machine.Faithful, LogState.NextEntries, Machine.Cursor, Machine.News, Numbered;
    NewsIsNext(a, max);
  }

  lemma CompactNothing(log: Log)
    ensures log.Compacted(log.base) == log
  {
  }

  lemma NewsFacts(a: Machine, max: nat)
    requires a.Good()
    ensures !a.Gap(max)
    ensures Numbered(a.News(max), a.Resumed() + 1)
    ensures a.Cursor(max) == a.Resumed() + |a.News(max)| <= a.log.log.Last()
  {
    hide IsLimited, Limited, Machine.Faithful, LogState.NextEntries, Log.Slice, Machine.Cursor, Machine.News, Numbered;
    NewsIsNext(a, max);
    SliceLength(a.log.log, a.Resumed() + 1, a.Cursor(max) + 1);
    SliceNumbered(a.log.log, a.Resumed() + 1, a.Cursor(max) + 1);
  }

  lemma CompactedSubset(log: Log, k: nat)
    requires log.base <= k <= log.Last()
    ensures forall e | e in log.Compacted(k).entries :: e in log.entries
  {
  }

  lemma CompactTwice(log: Log, j: nat, k: nat)
    requires log.Valid() && log.base <= j <= k <= log.Last()
    ensures log.Compacted(j).Valid() && log.Compacted(j).Last() == log.Last() && log.Compacted(j).base == j
    ensures log.Compacted(j).Compacted(k) == log.Compacted(k)
  {
  }

  /** Some Ready cycles after first: the log lost its front at most, and the store grew by its entries. */
  ghost predicate Underway(first: Machine, a: Machine) {
    var whole := first.log.log;
    && whole.Valid() && a.log.committed == first.log.committed
    && whole.base <= a.log.log.base <= a.log.committed <= whole.Last()
    && a.log.log == whole.Compacted(a.log.log.base)
    && whole.base <= first.Resumed() <= a.Resumed() <= whole.Last()
    && a.ResumedStore() == first.ResumedStore() + whole.Slice(first.Resumed() + 1, a.Resumed() + 1)
    && (first.log.applied == first.cursor ==> a.log.applied == a.cursor)
  }

  lemma UnderwayAtStart(first: Machine)
    requires first.Good()
    ensures Underway(first, first)
  {
    CompactNothing(first.log.log);
    assert first.log.log.Slice(first.Resumed() + 1, first.Resumed() + 1) == [];
  }

  lemma UnderwayStep(first: Machine, a: Machine, max: nat, k: nat)
    requires Underway(first, a) && a.Good() && !a.Gap(max) && a.CanCompact(max, k)
    ensures Underway(first, a.Cycle(max, k))
  {
    hide Machine.Faithful, Machine.News, LogState.NextEntries, Machine.Cursor, LogState.Cursor, Log.Slice, Log.Compacted;
    var whole := first.log.log;
    NewsIsNext(a, max);
    CompactTwice(whole, a.log.log.base, k);
    CompactedAt(a.log.log, k, 0);
    SliceOfCompacted(whole, a.log.log.base, a.Resumed() + 1, a.Cursor(max) + 1);
    SlicesJoin(whole, first.Resumed() + 1, a.Resumed() + 1, a.Cursor(max) + 1);
    if a.log.applied == a.cursor {
      TogetherStep(a, Event.Cycle(max, k));
    }
  }

  lemma UnderwayAtEnd(first: Machine, a: Machine)
    requires Underway(first, a) && a.Good()
    ensures a.log.committed == first.log.committed
    ensures first.log.log.base <= a.log.log.base <= a.log.committed <= first.log.log.Last()
    ensures a.log.log == first.log.log.Compacted(a.log.log.base)
    ensures !a.log.pending ==>
      && first.log.log.base <= first.Resumed() <= a.cursor <= first.log.log.Last()
      && a.store == first.ResumedStore() + first.log.log.Slice(first.Resumed() + 1, a.cursor + 1)
    ensures !a.log.pending && a.log.committed + 1 <= a.log.NextIndex() ==> a.cursor == a.log.committed
    ensures first.log.applied == first.cursor ==> a.log.applied == a.cursor
  {
  }

  lemma SliceOfCompacted(log: Log, k: nat, low: nat, high: nat)
    requires log.base <= k < low <= high <= log.Last() + 1
    ensures log.Compacted(k).base == k && log.Compacted(k).Last() == log.Last()
    ensures log.Compacted(k).Slice(low, high) == log.Slice(low, high)
  {
  }

  lemma SlicesJoin(log: Log, low: nat, mid: nat, high: nat)
    requires log.base < low <= mid <= high <= log.Last() + 1
    ensures log.Slice(low, mid) + log.Slice(mid, high) == log.Slice(low, high)
  {
  }

  /** A cycle with a batch to deliver moves on. */
  lemma CycleProgress(a: Machine, max: nat, k: nat)
    requires a.Good() && !a.Gap(max) && a.CanCompact(max, k)
    ensures a.Cycle(max, k).log.NextIndex() >= a.log.NextIndex()
    ensures a.log.committed + 1 > a.log.NextIndex() ==> a.Cycle(max, k).log.NextIndex() > a.log.NextIndex()
    ensures a.Cycle(max, k).log.committed == a.log.committed && !a.Cycle(max, k).log.pending
    ensures a.Cycle(max, k).log.log == a.log.log.Compacted(k) && a.Cycle(max, k).log.log.base == k
  {
    hide IsLimited, Limited, Machine.Faithful, LogState.NextEntries, Log.Slice;
    CursorInRange(a.log, max);
    SliceLength(a.log.log, a.log.NextIndex(), a.log.NextIndex() + |a.log.NextEntries(max)|);
  }
}
