/**
 * Where the node meets its write-ahead log: what the Ready loop writes is a history in the sense of
 * module WalReplay (raft-kv/server/raft_node.cpp:104-157), and what a node starts from afterwards is
 * the node that crashed, restarted in the sense of module Cluster (raft_node.cpp:204-240).
 */
module Journal {
  import opened Proto
  import opened LogSpec
  import opened LogWindow
  import opened Storage
  import opened UnstableLog
  import opened WalFormat
  import opened Wal
  import opened WalReplay
  import NodeSpec
  import Cluster
  import NodeAction
  import RaftCore
  import Server

  // ---------------------------------------------------------------- a save is a legal run of steps

  /** The records of one save, in the order in which save writes them. */
  function StepsOf(hs: HardState, ents: seq<Entry>): seq<Step> {
    PutAll(ents) + if hs == EMPTY_STATE then [] else [State(hs)]
  }

  function PutAll(ents: seq<Entry>): seq<Step> {
    if ents == [] then [] else PutAll(ents[..|ents| - 1]) + [Put(ents[|ents| - 1])]
  }

  function AfterAll(m: Memory, steps: seq<Step>): Memory {
    if steps == [] then m else After(AfterAll(m, steps[..|steps| - 1]), steps[|steps| - 1])
  }

  ghost predicate LegalAll(m: Memory, steps: seq<Step>) {
    steps == [] ||
    (var n := |steps| - 1; LegalAll(m, steps[..n]) && Legal(AfterAll(m, steps[..n]), steps[n]))
  }

  lemma AllOneMore(m: Memory, steps: seq<Step>, s: Step)
    ensures AfterAll(m, steps + [s]) == After(AfterAll(m, steps), s)
    ensures LegalAll(m, steps + [s]) <==> LegalAll(m, steps) && Legal(AfterAll(m, steps), s)
  {
    hide After, Legal;
    assert (steps + [s])[..|steps|] == steps;
  }

  /** What a node may be asked to save: entries behind what is committed, and then what they commit. */
  ghost predicate MaySave(m: Memory, hs: HardState, ents: seq<Entry>) {
    && !m.Waiting()
    && (ents != [] ==> m.safe < ents[0].index <= |m.log| + 1 && Numbered(ents, ents[0].index))
    && (hs != EMPTY_STATE ==> m.safe <= hs.commit <= |Saved(m, ents)|)
  }

  /** The log once ents are saved. */
  function Saved(m: Memory, ents: seq<Entry>): seq<Entry> {
    if ents != [] && 1 <= ents[0].index <= |m.log| + 1 then m.log[..ents[0].index - 1] + ents else m.log
  }

  lemma {:induction false} PutsAreLegal(m: Memory, ents: seq<Entry>)
    requires MaySave(m, EMPTY_STATE, ents)
    ensures LegalAll(m, PutAll(ents)) && AfterAll(m, PutAll(ents)) == m.(log := Saved(m, ents))
    decreases |ents|
  {
    if ents != [] {
      var n := |ents| - 1;
      assert ents[n].index == ents[0].index + n;
      if n > 0 {
        assert ents[..n][0] == ents[0];
      }
      assert Numbered(ents[..n], ents[0].index);
      hide Legal, Numbered, After;
      PutsAreLegal(m, ents[..n]);
      OnePut(m, AfterAll(m, PutAll(ents[..n])), ents);
      AllOneMore(m, PutAll(ents[..n]), Put(ents[n]));
    }
  }

  lemma OnePut(m: Memory, m': Memory, ents: seq<Entry>)
    requires ents != [] && !m.Waiting() && m.safe < ents[0].index <= |m.log| + 1
    requires var n := |ents| - 1;
      && ents[n].index == ents[0].index + n
      && m' == m.(log := Saved(m, ents[..n]))
      && (n > 0 ==> ents[..n][0] == ents[0])
    ensures Legal(m', Put(ents[|ents| - 1]))
    ensures After(m', Put(ents[|ents| - 1])) == m.(log := Saved(m, ents))
  {
    var n := |ents| - 1;
    assert ents == ents[..n] + [ents[n]];
  }

  /**
   * Because save writes the entries before the hard state, whatever part of a save survives is
   * legal, as long as the node only replaces uncommitted entries and only commits what it has.
   */
  lemma SaveIsLegal(m: Memory, hs: HardState, ents: seq<Entry>)
    requires MaySave(m, hs, ents)
    ensures LegalAll(m, StepsOf(hs, ents))
    ensures AfterAll(m, StepsOf(hs, ents)) ==
      if hs == EMPTY_STATE then m.(log := Saved(m, ents)) else Memory(Saved(m, ents), hs, hs.commit, m.marked)
  {
    PutsAreLegal(m, ents);
    if hs == EMPTY_STATE {
      assert StepsOf(hs, ents) == PutAll(ents);
    } else {
      AllOneMore(m, PutAll(ents), State(hs));
    }
  }

  lemma {:induction false} SaveRecordsAreSteps(c: Codec, hs: HardState, ents: seq<Entry>)
    ensures RecordsOf(c, StepsOf(hs, ents)) == SaveRecords(c, hs, ents)
  {
    PutRecords(c, ents);
    if hs == EMPTY_STATE {
      assert StepsOf(hs, ents) == PutAll(ents);
    } else {
      assert StepsOf(hs, ents)[..|StepsOf(hs, ents)| - 1] == PutAll(ents);
    }
  }

  lemma {:induction false} PutRecords(c: Codec, ents: seq<Entry>)
    ensures RecordsOf(c, PutAll(ents)) == EntryRecords(c, ents)
    decreases |ents|
  {
    if ents != [] {
      PutRecords(c, ents[..|ents| - 1]);
      assert PutAll(ents)[..|PutAll(ents)| - 1] == PutAll(ents[..|ents| - 1]);
    }
  }

  /** A history goes on with every legal run of steps. */
  lemma {:induction false} HistoryGrows(steps: seq<Step>, more: seq<Step>)
    requires IsHistory(steps) && LegalAll(MemoryAfter(steps), more)
    ensures IsHistory(steps + more) && MemoryAfter(steps + more) == AfterAll(MemoryAfter(steps), more)
    decreases |more|
  {
    hide IsHistory, MemoryAfter, Legal, After;
    if more == [] {
      assert steps + more == steps;
    } else {
      var n := |more| - 1;
      assert more == more[..n] + [more[n]];
      AllOneMore(MemoryAfter(steps), more[..n], more[n]);
      HistoryGrows(steps, more[..n]);
      OneMoreStep(steps + more[..n], more[n]);
      assert steps + more[..n] + [more[n]] == steps + more;
    }
  }

  lemma {:induction false} RecordsConcat(c: Codec, a: seq<Step>, b: seq<Step>)
    ensures RecordsOf(c, a + b) == RecordsOf(c, a) + RecordsOf(c, b)
  {
    forall i | 0 <= i < |a + b| ensures RecordsOf(c, a + b)[i] == (RecordsOf(c, a) + RecordsOf(c, b))[i] {
    }
  }

  // ---------------------------------------------------------------- what a crash leaves

  /** Had the node stopped after k records, it would have lost commit indexes at most. */
  ghost predicate Lasts(steps: seq<Step>, k: nat)
    requires k <= |steps|
  {
    var m, m' := MemoryAfter(steps[..k]), MemoryAfter(steps);
    m.log == m'.log && m.hs.term == m'.hs.term && m.hs.vote == m'.hs.vote && m.hs.commit <= m'.hs.commit
  }

  ghost predicate SyncedAt(c: Codec, disk: seq<Byte>, steps: seq<Step>, j: nat) {
    && j <= |steps| && EncodeAll(c.crc, RecordsOf(c, steps[..j])) <= disk
    && forall k: nat | j <= k <= |steps| :: Lasts(steps, k)
  }

  /** The log, the term and the vote are on disk. */
  ghost predicate Synced(c: Codec, disk: seq<Byte>, steps: seq<Step>) {
    exists j: nat :: SyncedAt(c, disk, steps, j)
  }

  lemma SyncedWhole(c: Codec, steps: seq<Step>)
    ensures Synced(c, EncodeAll(c.crc, RecordsOf(c, steps)), steps)
  {
    hide MemoryAfter, EncodeAll, RecordsOf;
    assert steps[..|steps|] == steps;
    assert SyncedAt(c, EncodeAll(c.crc, RecordsOf(c, steps)), steps, |steps|);
  }

  /** A record that only moves the commit index need not be on disk. */
  lemma SyncedMore(c: Codec, disk: seq<Byte>, disk': seq<Byte>, steps: seq<Step>, s: Step)
    requires Synced(c, disk, steps) && disk <= disk'
    requires var m := MemoryAfter(steps);
      var m' := After(m, s);
      m'.log == m.log && m'.hs.term == m.hs.term && m'.hs.vote == m.hs.vote && m.hs.commit <= m'.hs.commit
    ensures Synced(c, disk', steps + [s])
  {
    hide EncodeAll, RecordsOf, After;
    var j: nat :| SyncedAt(c, disk, steps, j);
    var more := steps + [s];
    assert more[..|steps|] == steps && more[..j] == steps[..j];
    forall k: nat | j <= k <= |more| ensures Lasts(more, k) {
      if k <= |steps| {
        assert more[..k] == steps[..k] && Lasts(steps, k);
      } else {
        assert more[..k] == more;
      }
    }
    assert SyncedAt(c, disk', more, j);
  }

  /**
   * Whatever part of the log file a crash leaves beyond what was synced, the node finds its own log,
   * its term and its vote, and a commit index it once had.
   */
  lemma OnlyCommitIsLost(c: Codec, synced: seq<Byte>, disk: seq<Byte>, steps: seq<Step>)
    requires Synced(c, synced, steps) && synced <= disk
    ensures Lasts(steps, Whole(c.crc, RecordsOf(c, steps), |disk|))
  {
    hide EncodeAll, RecordsOf, Lasts, Whole;
    var j: nat :| SyncedAt(c, synced, steps, j);
    RecordsPrefix(c, steps, j);
    WholeIsLargest(c.crc, RecordsOf(c, steps), |disk|, j);
  }

  lemma RecordsPrefix(c: Codec, steps: seq<Step>, j: nat)
    requires j <= |steps|
    ensures RecordsOf(c, steps)[..j] == RecordsOf(c, steps[..j])
  {
  }

  // ---------------------------------------------------------------- what the object writes

  /** What save compares the new hard state with is the one on file, or nothing has been saved since opening. */
  ghost predicate InTouch(state: HardState, m: Memory) {
    (state.term == m.hs.term && state.vote == m.hs.vote) || (state == EMPTY_STATE && m.hs.term > 0)
  }

  /** The bytes of the log object are the records of this history; all but commit indexes are synced. */
  ghost predicate Keeps(wal: Wal, steps: seq<Step>)
    reads wal, wal.file
  {
    && wal.file.crc == wal.codec.crc && IsHistory(steps)
    && wal.Bytes() == EncodeAll(wal.codec.crc, RecordsOf(wal.codec, steps))
    && InTouch(wal.state, MemoryAfter(steps)) && Synced(wal.codec, wal.file.disk, steps)
  }

  lemma BytesGrow(c: Codec, steps: seq<Step>, more: seq<Step>, rs: seq<Record>)
    requires RecordsOf(c, more) == rs
    ensures EncodeAll(c.crc, RecordsOf(c, steps + more)) == EncodeAll(c.crc, RecordsOf(c, steps)) + EncodeAll(c.crc, rs)
  {
    RecordsConcat(c, steps, more);
    EncodeConcat(c.crc, RecordsOf(c, steps), rs);
  }

  /** What a Ready that carries a received snapshot may ask: it commits exactly that. */
  ghost predicate MayInstall(m: Memory, hs: HardState, s: Snapshot) {
    && Legal(m, Ahead(hs)) && hs.commit == s.index
    && Legal(After(m, Ahead(hs)), Received(Mark(s.index, s.term), s.data))
  }

  /** What a Ready may ask to be written. */
  ghost predicate MayWrite(m: Memory, hs: HardState, ents: seq<Entry>, snap: Option<Snapshot>) {
    && (snap.None? ==> MaySave(m, hs, ents))
    && (snap.Some? ==> ents == [] && hs != EMPTY_STATE && MayInstall(m, hs, snap.value))
    && (hs != EMPTY_STATE ==> m.hs.term <= hs.term)
  }

  /** The memory once it is. */
  function Written(m: Memory, hs: HardState, ents: seq<Entry>, snap: Option<Snapshot>): Memory {
    if snap.Some? then Memory(snap.value.data, hs, snap.value.index, snap.value.index)
    else if hs == EMPTY_STATE then m.(log := Saved(m, ents))
    else Memory(Saved(m, ents), hs, hs.commit, m.marked)
  }

  function ReadySteps(hs: HardState, ents: seq<Entry>, snap: Option<Snapshot>): seq<Step> {
    match snap
    case None => StepsOf(hs, ents)
    case Some(s) => [Ahead(hs), Received(Mark(s.index, s.term), s.data)]
  }

  function ReadyRecords(c: Codec, hs: HardState, ents: seq<Entry>, snap: Option<Snapshot>): seq<Record> {
    SaveRecords(c, hs, ents)
    + if snap.Some? then [Record(SNAPSHOT, c.packMark(Mark(snap.value.index, snap.value.term)))] else []
  }

  /**
   * raft_node.cpp:104-112: entries and hard state, then the mark of a received snapshot. The log
   * object goes on keeping a history, in the end of which the memory is what the node now holds;
   * what is on disk after a crash in between is a prefix of it.
   */
  method SaveReady(wal: Wal, hs: HardState, ents: seq<Entry>, snap: Option<Snapshot>, ghost steps: seq<Step>)
    returns (ghost steps': seq<Step>)
    requires wal.file.crc == wal.codec.crc
    modifies wal, wal.file`disk, wal.file`buffer, wal.file`fileSize
    ensures old(Keeps(wal, steps)) && MayWrite(MemoryAfter(steps), hs, ents, snap) ==>
      && Keeps(wal, steps') && steps <= steps'
      && MemoryAfter(steps') == Written(MemoryAfter(steps), hs, ents, snap)
      && (snap.Some? ==> Newest(steps', |steps'|, Mark(snap.value.index, snap.value.term)) && wal.file.buffer == [])
  {
    hide EncodeAll, RecordsOf, IsHistory, MemoryAfter, SaveRecords, MayWrite, Written, ReadySteps, InTouch, Synced, Newest;
    ghost var m, state, disk, kept := MemoryAfter(steps), wal.state, wal.file.disk, Keeps(wal, steps);
    steps' := steps + ReadySteps(hs, ents, snap);
    wal.Save(hs, ents);
    if snap.Some? {
      wal.SaveSnapshot(Mark(snap.value.index, snap.value.term));
    }
    if kept && MayWrite(m, hs, ents, snap) {
      ReadyBytes(wal.codec, hs, ents, snap);
      ReadyIsLegal(wal.codec, steps, hs, ents, snap);
      StaysInTouch(state, m, hs, ents, snap);
      assert wal.Bytes() == EncodeAll(wal.codec.crc, RecordsOf(wal.codec, steps'));
      if wal.file.buffer == [] {
        assert wal.Bytes() == wal.file.disk;
        SyncedWhole(wal.codec, steps');
      } else {
        CommitUnsynced(wal.codec, state, disk, wal.file.disk, steps, hs, ents, snap);
      }
    }
  }

  lemma ReadyBytes(c: Codec, hs: HardState, ents: seq<Entry>, snap: Option<Snapshot>)
    ensures EncodeAll(c.crc, ReadyRecords(c, hs, ents, snap)) == EncodeAll(c.crc, SaveRecords(c, hs, ents))
      + if snap.Some? then Encode(c.crc, Record(SNAPSHOT, c.packMark(Mark(snap.value.index, snap.value.term)))) else []
  {
    hide EncodeAll, Encode, SaveRecords;
    if snap.Some? {
      var mark := Record(SNAPSHOT, c.packMark(Mark(snap.value.index, snap.value.term)));
      EncodeConcat(c.crc, SaveRecords(c, hs, ents), [mark]);
      EncodeOne(c.crc, mark);
    } else {
      assert SaveRecords(c, hs, ents) + [] == SaveRecords(c, hs, ents);
    }
  }

  /** What a Ready writes goes on with the history. */
  lemma ReadyIsLegal(c: Codec, steps: seq<Step>, hs: HardState, ents: seq<Entry>, snap: Option<Snapshot>)
    requires IsHistory(steps) && MayWrite(MemoryAfter(steps), hs, ents, snap)
    ensures var steps' := steps + ReadySteps(hs, ents, snap);
      && IsHistory(steps') && MemoryAfter(steps') == Written(MemoryAfter(steps), hs, ents, snap)
      && EncodeAll(c.crc, RecordsOf(c, steps'))
         == EncodeAll(c.crc, RecordsOf(c, steps)) + EncodeAll(c.crc, ReadyRecords(c, hs, ents, snap))
      && (snap.Some? ==> Newest(steps', |steps'|, Mark(snap.value.index, snap.value.term)))
  {
    hide EncodeAll, RecordsOf, IsHistory, MemoryAfter, Legal, SaveRecords, LegalAll, AfterAll;
    var m, more := MemoryAfter(steps), ReadySteps(hs, ents, snap);
    if snap.None? {
      SaveIsLegal(m, hs, ents);
      SaveRecordsAreSteps(c, hs, ents);
      assert SaveRecords(c, hs, ents) + [] == SaveRecords(c, hs, ents);
    } else {
      InstallIsLegal(c, m, hs, snap.value);
      assert NewestAt(steps + more, |steps + more|, Mark(snap.value.index, snap.value.term), |steps + more| - 1);
    }
    BytesGrow(c, steps, more, ReadyRecords(c, hs, ents, snap));
    HistoryGrows(steps, more);
  }

  lemma InstallIsLegal(c: Codec, m: Memory, hs: HardState, s: Snapshot)
    requires MayInstall(m, hs, s) && hs != EMPTY_STATE
    ensures var mark := Mark(s.index, s.term);
      var more := [Ahead(hs), Received(mark, s.data)];
      && LegalAll(m, more) && AfterAll(m, more) == Memory(s.data, hs, s.index, s.index)
      && RecordsOf(c, more) == SaveRecords(c, hs, []) + [Record(SNAPSHOT, c.packMark(mark))]
  {
    var mark := Mark(s.index, s.term);
    AllOneMore(m, [], Ahead(hs));
    AllOneMore(m, [Ahead(hs)], Received(mark, s.data));
    assert [] + [Ahead(hs)] == [Ahead(hs)];
    assert [Ahead(hs)] + [Received(mark, s.data)] == [Ahead(hs), Received(mark, s.data)];
    assert SaveRecords(c, hs, []) == [RecordOf(c, Ahead(hs))];
  }

  lemma StaysInTouch(state: HardState, m: Memory, hs: HardState, ents: seq<Entry>, snap: Option<Snapshot>)
    requires InTouch(state, m) && MayWrite(m, hs, ents, snap)
    ensures InTouch(if hs == EMPTY_STATE then state else hs, Written(m, hs, ents, snap))
  {
  }

  /** What save leaves unsynced moves the commit index at most (wal.cpp:285, util.cpp:49-55). */
  lemma CommitUnsynced(c: Codec, state: HardState, disk: seq<Byte>, disk': seq<Byte>, steps: seq<Step>,
                       hs: HardState, ents: seq<Entry>, snap: Option<Snapshot>)
    requires InTouch(state, MemoryAfter(steps)) && MayWrite(MemoryAfter(steps), hs, ents, snap)
    requires Synced(c, disk, steps) && disk <= disk' && snap.None? && ents == []
    requires hs == EMPTY_STATE || (hs.term == state.term && hs.vote == state.vote)
    ensures Synced(c, disk', steps + ReadySteps(hs, ents, snap))
  {
    hide MemoryAfter, EncodeAll, RecordsOf;
    if hs == EMPTY_STATE {
      assert steps + ReadySteps(hs, ents, snap) == steps;
      var j: nat :| SyncedAt(c, disk, steps, j);
      assert SyncedAt(c, disk', steps, j);
    } else {
      assert ReadySteps(hs, ents, snap) == [State(hs)];
      SyncedMore(c, disk, disk', steps, State(hs));
    }
  }

  /** raft_node.cpp:136-157, for a snapshot of the node's own: the mark before the snapshot's file. */
  method SaveOwnSnapshot(wal: Wal, mark: Mark, ghost steps: seq<Step>) returns (ghost steps': seq<Step>)
    requires wal.file.crc == wal.codec.crc
    modifies wal, wal.file`disk, wal.file`buffer, wal.file`fileSize
    ensures wal.file.buffer == []
    ensures old(Keeps(wal, steps)) && Legal(MemoryAfter(steps), Marked(mark)) ==>
      && Keeps(wal, steps') && steps' == steps + [Marked(mark)]
      && MemoryAfter(steps') == MemoryAfter(steps).(marked := mark.index)
  {
    hide EncodeAll, RecordsOf, IsHistory, MemoryAfter, Legal, Synced;
    ghost var kept := Keeps(wal, steps);
    steps' := steps + [Marked(mark)];
    wal.SaveSnapshot(mark);
    if kept && Legal(MemoryAfter(steps), Marked(mark)) {
      MarkRecord(wal.codec, mark);
      BytesGrow(wal.codec, steps, [Marked(mark)], [Record(SNAPSHOT, wal.codec.packMark(mark))]);
      EncodeOne(wal.codec.crc, Record(SNAPSHOT, wal.codec.packMark(mark)));
      OneMoreStep(steps, Marked(mark));
      assert wal.Bytes() == wal.file.disk;
      SyncedWhole(wal.codec, steps');
    }
  }

  lemma MarkRecord(c: Codec, mark: Mark)
    ensures RecordsOf(c, [Marked(mark)]) == [Record(SNAPSHOT, c.packMark(mark))]
  {
    assert RecordsOf(c, [Marked(mark)])[0] == RecordOf(c, Marked(mark));
  }

  // ---------------------------------------------------------------- what a node owes its log file

  function StateOf(n: NodeSpec.Node): HardState { HardState(n.term, n.vote, n.commit) }

  /** The memory of the file is that of the node. */
  ghost predicate Remembers(m: Memory, n: NodeSpec.Node) {
    m.log == n.log && m.hs == StateOf(n) && m.safe == n.commit <= |n.log|
  }

  /** The hard state a Ready carries (ready.cpp:18-21). */
  function Changed(prev: HardState, hs: HardState): HardState { if hs == prev then EMPTY_STATE else hs }

  /** Once what is volatile is written, the file remembers the node. */
  ghost predicate Owes(m: Memory, n: NodeSpec.Node, ents: seq<Entry>, snap: Option<Snapshot>) {
    var hs := StateOf(n);
    && m.safe == m.hs.commit && m.hs.term <= hs.term && (hs == EMPTY_STATE ==> m.hs == EMPTY_STATE)
    && (snap.None? ==> MaySave(m, hs, ents) && Saved(m, ents) == n.log && n.commit <= |n.log|)
    && (snap.Some? ==> ents == [] && MayInstall(m, hs, snap.value) && snap.value.data == n.log)
  }

  lemma PaysOff(m: Memory, n: NodeSpec.Node, ents: seq<Entry>, snap: Option<Snapshot>)
    requires Owes(m, n, ents, snap)
    ensures var hs := Changed(m.hs, StateOf(n));
      && MayWrite(m, hs, ents, snap)
      && Remembers(Written(m, hs, ents, snap), n) && StateOf(n) == (if hs == EMPTY_STATE then m.hs else hs)
      && Written(m, hs, ents, snap).marked == if snap.Some? then snap.value.index else m.marked
  {
  }

  lemma NothingOwed(m: Memory, n: NodeSpec.Node)
    ensures Remembers(m, n) ==> Owes(m, n, [], None)
  {
  }

  /**
   * Whatever step a node takes, apart from installing a snapshot, the log object may be asked to save
   * what is new: the entries from the first one that is not on file, and the new hard state.
   */
  lemma StepMaySave(cfg: NodeSpec.Config, n: NodeSpec.Node, msg: Message, n': NodeSpec.Node, out: set<Message>, m: Memory, d: nat)
    requires cfg.Valid() && n.id in cfg.voters && NodeSpec.Step(cfg, n, msg, n', out) && Remembers(m, n)
    requires RaftCore.WellSent(msg) && (msg.Snap? ==> n'.log == n.log)
    requires n.commit <= d <= |n.log| && d <= |n'.log| && n'.log[..d] == n.log[..d]
    requires Numbered(n'.log, 1) && n'.commit <= |n'.log|
    requires n'.log[d..] == [] ==> n'.log == n.log
    ensures Owes(m, n', n'.log[d..], None)
  {
    NodeAction.StepKeeps(cfg, n, msg, n', out);
    NodeAction.StepKeepsVote(cfg, n, msg, n', out);
    hide NodeSpec.Step;
    var ents := n'.log[d..];
    if ents != [] {
      assert ents[0] == n'.log[d];
      assert n'.log[..d] + ents == n'.log;
    }
  }

  /** Nothing that the node has committed is contradicted by a snapshot; see Deliverable.DeliveryAgrees. */
  ghost predicate Agrees(n: NodeSpec.Node, msg: Message) {
    msg.Snap? && n.commit < msg.index ==>
      n.commit <= |msg.prefix| && n.commit <= |n.log| && msg.prefix[..n.commit] == n.log[..n.commit]
  }

  /** And a snapshot that the node installs may be saved. */
  lemma SnapshotMayInstall(cfg: NodeSpec.Config, n: NodeSpec.Node, msg: Message, n': NodeSpec.Node, out: set<Message>, m: Memory)
    requires cfg.Valid() && n.id in cfg.voters && NodeSpec.Step(cfg, n, msg, n', out) && Remembers(m, n)
    requires RaftCore.WellSent(msg) && Agrees(n, msg)
    requires msg.Snap? && n.commit < msg.index && NodeSpec.TermAt(n.log, msg.index) != msg.logTerm
    requires n'.log == msg.prefix && n'.commit == msg.index
    ensures Owes(m, n', [], Some(Snapshot(msg.index, msg.logTerm, msg.prefix)))
  {
    NodeAction.StepKeepsVote(cfg, n, msg, n', out);
    hide NodeSpec.Step;
  }

  // ---------------------------------------------------------------- coming back

  /** The snapshot file that goes with the mark the log is opened at. */
  ghost predicate FileStandsFor(snap: Snapshot, log: seq<Entry>) {
    snap.index <= |log| && snap.data == log[..snap.index] && snap.term == NodeSpec.TermAt(log, snap.index)
  }

  /** The file can be read, whole or torn, and what is read is what the node held. */
  ghost predicate Readable(c: Codec, disk: seq<Byte>, steps: seq<Step>, k: nat, start: Mark) {
    && c.Valid() && IsHistory(steps) && AllWritable(RecordsOf(c, steps))
    && |disk| <= |EncodeAll(c.crc, RecordsOf(c, steps))| && disk == EncodeAll(c.crc, RecordsOf(c, steps))[..|disk|]
    && k == Whole(c.crc, RecordsOf(c, steps), |disk|)
    && Opens(steps, k, start) && !Outstanding(steps, k, start)
    && (EndsBeyond(steps, k, start.index) || !Beyond(steps, k, start.index))
  }

  lemma ReadsOwn(c: Codec, disk: seq<Byte>, steps: seq<Step>, k: nat, start: Mark)
    requires Readable(c, disk, steps, k, start)
    ensures var parsed := Parse(c.crc, disk, 0);
      var s, m := Replay(c, start, parsed.records), MemoryAfter(steps[..k]);
      && k <= |steps| && !s.fatal && s.matched && s.hs == m.hs
      && start.index <= |m.log| && s.ents == m.log[start.index..] && Numbered(m.log, 1)
      && start.index <= m.hs.commit <= |m.log|
      && Trimmed(disk, parsed.cut) == EncodeAll(c.crc, RecordsOf(c, steps)[..k])
  {
    hide Replay, MemoryAfter, Parse, EncodeAll, Trimmed, Whole, IsHistory, Newest, Late, FileFits, Mirrors, Legal, Reached;
    CrashRecovery(c, steps, start, |disk|);
    Reopened(c, steps, start, k);
    RecoversOwnLog(c, steps, start, k);
  }

  /** What the log file holds, and what the node remembers of it, between two server actions. */
  ghost predicate Records(wal: Wal, steps: seq<Step>, raft: RaftCore.Raft, server: Server.Server, prev: HardState)
    reads wal, wal.file, raft, raft.log, raft.log.unstable, server
  {
    && Keeps(wal, steps) && Remembers(MemoryAfter(steps), raft.View()) && prev == StateOf(raft.View())
    && MemoryAfter(steps).marked == server.snapshotIndex
    && raft.log.unstable.entries == [] && raft.log.floor == raft.log.committed
  }

  /** The node i of the cluster, as far as the file knows it: all of it but the commit index. */
  ghost predicate Knows(m: Memory, n: NodeSpec.Node) {
    n.log == m.log && n.term == m.hs.term && n.vote == m.hs.vote && m.hs.commit <= n.commit && m.hs != EMPTY_STATE
  }

  /**
   * After any server action (ReadyLoop.Act), whatever part a crash leaves of the bytes that were not
   * synced, the file knows the node that crashed.
   */
  lemma CrashLeavesNode(wal: Wal, steps: seq<Step>, n: NodeSpec.Node, disk: seq<Byte>)
    requires Keeps(wal, steps) && Remembers(MemoryAfter(steps), n) && n.term > 0
    requires wal.file.disk <= disk <= wal.Bytes()
    ensures var all := EncodeAll(wal.codec.crc, RecordsOf(wal.codec, steps));
      |disk| <= |all| && disk == all[..|disk|]
    ensures Knows(MemoryAfter(steps[..Whole(wal.codec.crc, RecordsOf(wal.codec, steps), |disk|)]), n)
  {
    hide EncodeAll, RecordsOf, MemoryAfter, Whole, Synced;
    OnlyCommitIsLost(wal.codec, wal.file.disk, disk, steps);
  }

  /** raft_node.cpp:204-232: storage takes the newest snapshot, and what the log gives back. */
  method ReplayWal(codec: Codec, file: WalFile, snap: Snapshot, ghost steps: seq<Step>, ghost k: nat)
    returns (storage: MemoryStorage, wal: Wal)
    requires file.crc == codec.crc && file.buffer == []
    requires k <= |steps| && Readable(codec, file.disk, steps, k, Mark(snap.index, snap.term))
    requires FileStandsFor(snap, MemoryAfter(steps[..k]).log)
    modifies file`disk, file`buffer, file`fileSize
    ensures wal.file == file && wal.codec == codec && wal.state == EMPTY_STATE
    ensures file.disk == EncodeAll(codec.crc, RecordsOf(codec, steps)[..k]) && file.buffer == []
    ensures storage.Valid() && storage.snapshot.index == snap.index && FileStandsFor(storage.snapshot, MemoryAfter(steps[..k]).log)
    ensures var m := MemoryAfter(steps[..k]);
      && storage.hardState == m.hs && snap.index == storage.Abs().base <= m.hs.commit <= |m.log|
      && IsWindow(storage.Abs(), m.log) && storage.Abs().Last() == |m.log|
      && storage.Abs().baseTerm == storage.snapshot.term && Numbered(m.log, 1)
  {
    hide Replay, MemoryAfter, Parse, EncodeAll, Trimmed, Readable, RecordsOf, IsWindow, Numbered;
    ReadsOwn(codec, file.disk, steps, k, Mark(snap.index, snap.term));
    ghost var m := MemoryAfter(steps[..k]);
    storage := new MemoryStorage();
    if snap.index > 0 {
      var _ := storage.ApplySnapshot(snap);
    } else {
      assert m.log[..0] == [];
    }
    wal := new Wal(codec, file, Mark(snap.index, snap.term));
    var s := wal.ReadAll();
    storage.hardState := s.hs;
    OverwriteNothing(snap, s.ents, m.log);
    storage.Append(s.ents);
  }

  /** raft.cpp:23-119, 1166-1177 and raft_node.cpp:358-369: both objects start from storage. */
  method StartFrom(cfg: NodeSpec.Config, id: Id, storage: MemoryStorage, unpacks: seq<Byte> -> bool,
                   maxMsgSize: nat, maxUncommitted: nat, maxInflight: nat, maxNextSize: nat, ghost full: seq<Entry>)
    returns (raft: RaftCore.Raft, server: Server.Server)
    requires cfg.Valid() && id in cfg.voters && !cfg.guarded && maxInflight >= 1
    requires storage.Valid() && IsWindow(storage.Abs(), full) && FileStandsFor(storage.snapshot, full) && Numbered(full, 1)
    requires storage.Abs().base == storage.snapshot.index && storage.Abs().baseTerm == storage.snapshot.term
    requires storage.Abs().base <= storage.hardState.commit <= storage.Abs().Last() && storage.hardState != EMPTY_STATE
    ensures NodeAction.InStep(raft, server) && raft.id == id && raft.cfg == cfg && raft.msgs == [] && raft.BooksOk()
    ensures raft.log.unstable.entries == [] && raft.log.floor == raft.log.committed
    ensures server.snapshotIndex == storage.snapshot.index
    ensures var hs := storage.hardState;
      raft.View() == NodeSpec.Node(id, hs.term, hs.vote, NodeSpec.Follower, NONE, {}, {}, full, hs.commit, map[id := |full|])
  {
    hide IsWindow, RaftCore.ProgsOk, RaftCore.Matched, RaftCore.Granted, RaftCore.Refused, RaftCore.Bounded;
    raft := new RaftCore.Raft(cfg, id, storage, maxMsgSize, maxUncommitted, maxInflight, maxNextSize, full);
    server := new Server.Server(raft.log, unpacks);
  }

  /**
   * raft_node.cpp:204-240, 358-369: the raft object made from the file is the node that crashed,
   * restarted, which is an event of the cluster; and it stands where its next action may start.
   */
  method ComeBack(cfg: NodeSpec.Config, id: Id, codec: Codec, file: WalFile, snap: Snapshot, unpacks: seq<Byte> -> bool,
                  maxMsgSize: nat, maxUncommitted: nat, maxInflight: nat, maxNextSize: nat,
                  ghost steps: seq<Step>, ghost k: nat, ghost c: Cluster.State)
    returns (raft: RaftCore.Raft, server: Server.Server, wal: Wal)
    requires Cluster.WellFormed(cfg, c) && id in cfg.voters && !cfg.guarded && maxInflight >= 1
    requires file.crc == codec.crc && file.buffer == []
    requires k <= |steps| && Readable(codec, file.disk, steps, k, Mark(snap.index, snap.term))
    requires FileStandsFor(snap, MemoryAfter(steps[..k]).log) && Knows(MemoryAfter(steps[..k]), c.nodes[id])
    modifies file`disk, file`buffer, file`fileSize
    ensures NodeAction.InStep(raft, server) && raft.id == id && raft.cfg == cfg && raft.msgs == [] && raft.BooksOk()
    ensures var commit := MemoryAfter(steps[..k]).hs.commit;
      Cluster.Happens(cfg, c, Cluster.Restart(id, commit), Cluster.State(c.nodes[id := raft.View()], c.net))
    ensures wal.file == file && wal.codec == codec
    ensures file.disk == EncodeAll(codec.crc, RecordsOf(codec, steps)[..k]) && file.buffer == []
    ensures Newest(steps, k, Mark(snap.index, snap.term)) && raft.term > 0 ==>
      Records(wal, steps[..k], raft, server, StateOf(raft.View()))
  {
    hide MemoryAfter, EncodeAll, Readable, RecordsOf, Newest, Synced, IsHistory, IsWindow, Numbered, NodeAction.InStep,
      FileStandsFor, Cluster.Happens, Cluster.WellFormed, RaftCore.Matched, RaftCore.Granted, RaftCore.Refused;
    ghost var m, disk := MemoryAfter(steps[..k]), file.disk;
    var storage;
    storage, wal := ReplayWal(codec, file, snap, steps, k);
    NodeOf(cfg, c, id);
    raft, server := StartFrom(cfg, id, storage, unpacks, maxMsgSize, maxUncommitted, maxInflight, maxNextSize, m.log);
    if Newest(steps, k, Mark(snap.index, snap.term)) {
      Reread(codec, disk, steps, k, Mark(snap.index, snap.term));
    }
    ComingBackIsRestart(cfg, c, id, raft.View(), m.hs.commit);
  }

  lemma NodeOf(cfg: NodeSpec.Config, c: Cluster.State, i: Id)
    requires Cluster.WellFormed(cfg, c) && i in cfg.voters
    ensures cfg.Valid() && i in c.nodes && c.nodes[i].id == i
  {
  }

  /** The records read are a history by themselves, and all of it is on disk. */
  lemma Reread(c: Codec, disk: seq<Byte>, steps: seq<Step>, k: nat, start: Mark)
    requires Readable(c, disk, steps, k, start) && Newest(steps, k, start)
    ensures IsHistory(steps[..k]) && RecordsOf(c, steps)[..k] == RecordsOf(c, steps[..k])
    ensures Synced(c, EncodeAll(c.crc, RecordsOf(c, steps[..k])), steps[..k])
    ensures var m := MemoryAfter(steps[..k]);
      m.marked == start.index && m.safe == m.hs.commit
  {
    hide MemoryAfter, EncodeAll, RecordsOf, Synced, Legal, After;
    MarksRise(steps, k);
    RecordsPrefix(c, steps, k);
    SyncedWhole(c, steps[..k]);
    forall q | 1 <= q < k ensures Legal(MemoryAfter(steps[..k][..q]), steps[..k][q]) {
      assert steps[..k][..q] == steps[..q];
    }
    MemoryStep(steps, k - 1);
    CommittedStays(steps, k - 1, k);
    NotWaiting(MemoryAfter(steps[..k - 1]), steps[k - 1]);
  }

  /** Only the hard state that commits a received snapshot makes a node wait. */
  lemma NotWaiting(m: Memory, s: Step)
    requires m.Ok() && !s.Ahead? && (Legal(m, s) || (m == BLANK && s == Marked(Mark(0, 0))))
    ensures After(m, s).safe == After(m, s).hs.commit
  {
  }

  lemma OverwriteNothing(snap: Snapshot, ents: seq<Entry>, log: seq<Entry>)
    requires FileStandsFor(snap, log) && Numbered(log, 1) && ents == log[snap.index..]
    ensures ents != [] ==> Numbered(ents, ents[0].index) && ents[0].index == snap.index + 1
    ensures var w := Log(snap.index, snap.term, []).Overwrite(ents);
      && w == Log(snap.index, snap.term, ents) && IsWindow(w, log)
      && w.Last() == |log|
  {
    if ents != [] {
      assert ents[0] == log[snap.index];
    }
  }

  lemma ComingBackIsRestart(cfg: NodeSpec.Config, c: Cluster.State, i: Id, n: NodeSpec.Node, commit: nat)
    requires Cluster.WellFormed(cfg, c) && i in cfg.voters && commit <= c.nodes[i].commit
    requires n == Cluster.Restarted(c.nodes[i], commit)
    ensures Cluster.Happens(cfg, c, Cluster.Restart(i, commit), Cluster.State(c.nodes[i := n], c.net))
  {
  }
}
