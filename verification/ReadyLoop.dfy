/**
 * One server action: a step of the raft object, and then the Ready loop until nothing is left to
 * save or to apply (raft-kv/server/raft_node.cpp:96-133, 397-409). This is the grain of the events of
 * module Cluster. It brings the node back to where the next step may start, and the log file back to
 * what the node holds.
 */
module ReadyLoop {
  import opened Proto
  import opened LogSpec
  import opened Storage
  import opened UnstableLog
  import opened RaftLog
  import opened LogWindow
  import opened NodeSpec
  import opened Wal
  import opened WalReplay
  import opened Journal
  import opened NodeAction
  import Apply
  import Server
  import RaftCore

  // ---------------------------------------------------------------- one Ready and its records

  /** Between two Readys: the file holds all but what waits in the volatile tier. */
  ghost predicate Tells(wal: Wal, steps: seq<Step>, raft: RaftCore.Raft, server: Server.Server, prev: HardState)
    reads wal, wal.file, raft, raft.log, server, server.log, server.log.unstable
  {
    && Keeps(wal, steps) && prev == MemoryAfter(steps).hs && server.log.floor == prev.commit
    && Owes(MemoryAfter(steps), raft.View(), server.log.unstable.entries, server.log.unstable.snapshot)
    && MemoryAfter(steps).marked == server.snapshotIndex
  }

  /**
   * raft_node.cpp:99-131: what is new goes into the log file before anything is done with it. The
   * mark of an own snapshot follows; prev' is what the next Ready compares the hard state with.
   */
  method SavedCycle(raft: RaftCore.Raft, server: Server.Server, wal: Wal, prev: HardState, ghost steps: seq<Step>, ghost told: bool)
    returns (ghost k: nat, prev': HardState, ghost steps': seq<Step>)
    requires Loops(raft, server) && wal.file.crc == wal.codec.crc
    requires told ==> Tells(wal, steps, raft, server, prev)
    modifies raft`msgs, raft`uncommitted, server, server.log`applied, server.log`floor, server.log.storage, server.log.unstable,
      wal, wal.file`disk, wal.file`buffer, wal.file`fileSize
    ensures Loops(raft, server) && raft.msgs == []
    ensures old(server.Mach()).CanCompact(server.log.maxNextSize, k) && !old(server.Mach()).Gap(server.log.maxNextSize)
    ensures server.Mach() == old(server.Mach()).Cycle(server.log.maxNextSize, k)
    ensures server.log.unstable.snapshot == None && server.log.unstable.entries == []
    ensures server.log.storage.Abs() == server.log.Abs()
    ensures Changed(prev', StateOf(raft.View())) == EMPTY_STATE
    ensures told ==> Tells(wal, steps', raft, server, prev') && steps <= steps'
  {
    hide Apply.Machine.Faithful, Apply.Machine.Cycle, Apply.Machine.CanCompact, Apply.Machine.Gap, Log.Compacted, Joined, Meet,
      Numbered, Apply.Machine.Good, Server.StandsFor, IsWindow, RaftCore.InOrder, Keeps, Owes, MayWrite, Written,
      Remembers, MemoryAfter, RaftCore.Matched, RaftCore.Granted, RaftCore.Refused;
    ghost var view := raft.View();
    var snap := server.log.unstable.snapshot;
    var marked := if snap.Some? then snap.value.index else server.snapshotIndex;
    var hs := Changed(prev, HardState(raft.term, raft.vote, raft.log.committed));
    if told {
      PaysOff(MemoryAfter(steps), view, server.log.unstable.entries, snap);
    }
    steps' := SaveReady(wal, hs, server.log.unstable.entries, snap, steps);
    prev' := if hs == EMPTY_STATE then prev else hs;
    k := OneCycle(raft, server);
    assert raft.View() == view;
    if server.snapshotIndex != marked {
      if told {
        OwnMark(MemoryAfter(steps'), view, server.Mach(), server.log.storage.snapshot);
      }
      steps' := SaveOwnSnapshot(wal, Mark(server.snapshotIndex, server.log.storage.snapshot.term), steps');
    }
    if told {
      NothingOwed(MemoryAfter(steps'), view);
    }
  }

  /** A new own snapshot may be marked, and the file still remembers the node. */
  lemma OwnMark(m: Memory, n: Node, a: Apply.Machine, s: Snapshot)
    requires Remembers(m, n) && a.Good() && IsWindow(a.log.log, n.log) && a.log.committed == n.commit
    requires Server.StandsFor(s, a.store, a.log.log) && a.log.log.base <= s.index == a.cursor && m.marked < s.index
    ensures Legal(m, Marked(Mark(s.index, s.term)))
    ensures Remembers(m.(marked := s.index), n)
  {
    hide Apply.Machine.Faithful;
    WindowFacts(a.log.log, n.log);
  }

  // ---------------------------------------------------------------- the Ready loop

  /** One round of the loop: it moves on, and what is left to do after it is less. */
  method Round(raft: RaftCore.Raft, server: Server.Server, wal: Wal, prev: HardState, other: bool,
               ghost first: Apply.Machine, ghost steps: seq<Step>, ghost told: bool)
    returns (prev': HardState, ghost steps': seq<Step>)
    requires Loops(raft, server) && wal.file.crc == wal.codec.crc
    requires told ==> Tells(wal, steps, raft, server, prev)
    requires Server.Underway(first, server.Mach())
    requires other || server.log.unstable.snapshot.Some? || server.log.unstable.entries != []
      || server.log.committed + 1 > server.log.State().NextIndex()
    modifies raft`msgs, raft`uncommitted, server, server.log`applied, server.log`floor, server.log.storage, server.log.unstable,
      wal, wal.file`disk, wal.file`buffer, wal.file`fileSize
    ensures Loops(raft, server) && raft.msgs == [] && raft.View() == old(raft.View())
    ensures Server.Underway(first, server.Mach()) && server.Pending(false) < old(server.Pending(other))
    ensures server.log.unstable.snapshot == None && server.log.unstable.entries == []
    ensures server.log.storage.Abs() == server.log.Abs()
    ensures Changed(prev', StateOf(raft.View())) == EMPTY_STATE
    ensures told ==> Tells(wal, steps', raft, server, prev') && steps <= steps'
  {
    hide Apply.Machine.Faithful, Apply.Machine.Cycle, Log.Compacted, Joined, Numbered, LogState.NextEntries, Log.Slice,
      Apply.Machine.Good, Server.Underway, Server.StandsFor, IsWindow, RaftCore.InOrder, Tells, Changed, Keeps,
      RaftCore.Matched, RaftCore.Granted, RaftCore.Refused;
    ghost var a, view := server.Mach(), raft.View();
    ghost var k;
    k, prev', steps' := SavedCycle(raft, server, wal, prev, steps, told);
    Server.CycleProgress(a, server.log.maxNextSize, k);
    Server.UnderwayStep(first, a, server.log.maxNextSize, k);
    assert raft.View() == view;
  }

  /** raft_node.cpp:98-132: the loop ends, and no Ready is dealt with before it is in the log file. */
  method Rounds(raft: RaftCore.Raft, server: Server.Server, wal: Wal, prev: HardState, soft: bool,
                ghost first: Apply.Machine, ghost steps: seq<Step>, ghost told: bool)
    returns (prev': HardState, ghost steps': seq<Step>)
    requires Loops(raft, server) && wal.file.crc == wal.codec.crc
    requires told ==> Tells(wal, steps, raft, server, prev)
    requires Server.Underway(first, server.Mach())
    requires server.log.unstable.entries == [] && server.log.unstable.snapshot == None ==>
      server.log.storage.Abs() == server.log.Abs()
    modifies raft`msgs, raft`uncommitted, server, server.log`applied, server.log`floor, server.log.storage, server.log.unstable,
      wal, wal.file`disk, wal.file`buffer, wal.file`fileSize
    ensures Loops(raft, server) && raft.msgs == [] && raft.View() == old(raft.View())
    ensures Server.Underway(first, server.Mach()) && server.log.committed + 1 <= server.log.State().NextIndex()
    ensures server.log.unstable.snapshot == None && server.log.unstable.entries == []
    ensures server.log.storage.Abs() == server.log.Abs()
    ensures Changed(prev', StateOf(raft.View())) == EMPTY_STATE
    ensures told ==> Tells(wal, steps', raft, server, prev') && steps <= steps'
  {
    hide Apply.Machine.Faithful, Joined, Meet, Numbered, LogState.NextEntries, Log.Slice, LogState.Valid,
      Apply.Machine.Good, Server.Underway, Server.StandsFor, IsWindow, RaftCore.InOrder, Tells, Changed, Keeps,
      RaftCore.Matched, RaftCore.Granted, RaftCore.Refused;
    var more := soft;
    prev', steps' := prev, steps;
    ghost var view := raft.View();
    while true
      invariant Loops(raft, server) && Server.Underway(first, server.Mach()) && raft.View() == view
      invariant server.log.unstable.entries == [] && server.log.unstable.snapshot == None ==>
        server.log.storage.Abs() == server.log.Abs()
      invariant told ==> Tells(wal, steps', raft, server, prev') && steps <= steps'
      decreases server.Pending(more || raft.msgs != [] || Changed(prev', StateOf(view)) != EMPTY_STATE)
    {
      var hs := Changed(prev', HardState(raft.term, raft.vote, raft.log.committed));
      var other := more || raft.msgs != [] || hs != EMPTY_STATE;
      var ready := server.HasReady(other);
      if !ready {
        break;
      }
      prev', steps' := Round(raft, server, wal, prev', other, first, steps', told);
      more := false;
    }
  }

  /**
   * raft_node.cpp:96-133 and node.cpp:125-185: the loop ends, and then nothing is left to save or to
   * apply. The first Ready takes the messages, each takes its batch off the leader's books, and no
   * Ready is dealt with before it is in the log file. soft says whether the soft state has changed.
   */
  method PullReadyEvents(raft: RaftCore.Raft, server: Server.Server, wal: Wal, prev: HardState, soft: bool,
                         ghost steps: seq<Step>, ghost told: bool)
    returns (sent: seq<Message>, prev': HardState, ghost steps': seq<Step>)
    requires Loops(raft, server) && wal.file.crc == wal.codec.crc
    requires told ==> Tells(wal, steps, raft, server, prev)
    modifies raft`msgs, raft`uncommitted, server, server.log`applied, server.log`floor, server.log.storage, server.log.unstable,
      wal, wal.file`disk, wal.file`buffer, wal.file`fileSize
    ensures sent == old(raft.msgs) && raft.msgs == []
    ensures Loops(raft, server) && server.Settled()
    ensures old(server.log.applied) == old(server.appliedIndex) ==> server.log.applied == server.appliedIndex
    ensures old(server.log.Abs()).base <= server.log.Abs().base <= server.log.committed
    ensures server.log.Abs() == old(server.log.Abs()).Compacted(server.log.Abs().base)
    ensures old(server.log.Abs()).base <= old(server.Mach().Resumed()) <= server.appliedIndex
    ensures server.store == old(server.Mach().ResumedStore())
      + old(server.log.Abs()).Slice(old(server.Mach().Resumed()) + 1, server.appliedIndex + 1)
    ensures told ==> Tells(wal, steps', raft, server, prev') && steps <= steps'
    ensures Changed(prev', StateOf(raft.View())) == EMPTY_STATE
  {
    hide Apply.Machine.Faithful, Apply.Machine.Cycle, Log.Compacted, Joined, Numbered, LogState.NextEntries, Log.Slice,
      Apply.Machine.Good, Server.Underway, Server.StandsFor, IsWindow, RaftCore.InOrder, Tells, Changed, Keeps,
      RaftCore.Matched, RaftCore.Granted, RaftCore.Refused;
    sent := raft.msgs;
    ghost var first := server.Mach();
    Server.UnderwayAtStart(first);
    if server.log.unstable.snapshot == None {
      SavedIsJoined(server.log.storage.Abs(), server.log.unstable.offset, server.log.unstable.entries);
    }
    prev', steps' := Rounds(raft, server, wal, prev, soft, first, steps, told);
    Server.UnderwayAtEnd(first, server.Mach());
  }

  // ---------------------------------------------------------------- one action

  /** What is volatile is what the whole log holds beyond the part that is still as it is in storage. */
  lemma Leftover(stored: Log, offset: nat, entries: seq<Entry>, full: seq<Entry>, full': seq<Entry>, commit: nat)
    requires Meet(stored, None, offset, entries)
    requires IsWindow(stored, full) && IsWindow(Joined(stored, None, offset, entries), full')
    requires stored.base <= commit < offset && commit <= |full| && commit <= |full'| && full'[..commit] == full[..commit]
    ensures commit <= offset - 1 <= |full| && offset - 1 <= |full'|
    ensures full'[..offset - 1] == full[..offset - 1] && full'[offset - 1..] == entries
    ensures entries == [] ==> full' == full
  {
    var w, d := Joined(stored, None, offset, entries), offset - 1;
    WindowFacts(stored, full);
    WindowFacts(w, full');
    forall i | 0 <= i < d ensures full'[i] == full[i] {
      if i < commit {
        assert full'[..commit][i] == full[..commit][i];
      } else {
        assert w.entries[i - stored.base] == stored.entries[i - stored.base];
      }
    }
    assert w.entries[d - stored.base..] == entries;
  }

  /** After a step, the volatile tier holds exactly what the file does not. */
  lemma StepOwes(raft: RaftCore.Raft, n: Node, msg: Message, out: set<Message>, w: Log, m: Memory)
    requires raft.Valid() && raft.Settles(msg, n.commit, n.log) && RaftCore.WellSent(msg)
    requires raft.cfg.Valid() && n.id in raft.cfg.voters && NodeSpec.Step(raft.cfg, n, msg, raft.View(), out)
    requires raft.log.storage.Abs() == w && IsWindow(w, n.log) && w.base <= n.commit && raft.log.floor == n.commit
    requires Remembers(m, n) && Agrees(n, msg)
    ensures Owes(m, raft.View(), raft.log.unstable.entries, raft.log.unstable.snapshot)
  {
    hide NodeSpec.Step, TermAt, Numbered, Joined, RaftCore.ProgsOk, RaftCore.Matched, RaftCore.Granted, RaftCore.Refused,
      RaftCore.SnapshotOk, RaftCore.Bounded, MaySave, MayInstall, Owes;
    WindowFacts(raft.log.Abs(), raft.full);
    JoinedIsValid(raft.log.storage.Abs(), raft.log.unstable.snapshot, raft.log.unstable.offset, raft.log.unstable.entries);
    if raft.log.unstable.snapshot == None {
      StepKeeps(raft.cfg, n, msg, raft.View(), out);
      Leftover(w, raft.log.unstable.offset, raft.log.unstable.entries, n.log, raft.full, n.commit);
      StepMaySave(raft.cfg, n, msg, raft.View(), out, m, raft.log.unstable.offset - 1);
    } else {
      SnapshotMayInstall(raft.cfg, n, msg, raft.View(), out, m);
    }
  }

  /** The step of an action, and how it leaves the server and the file; mem is what the file holds. */
  method StepFirst(raft: RaftCore.Raft, server: Server.Server, m: Message, lease: bool, forward: bool, ghost mem: Memory)
    requires InStep(raft, server) && raft.CanStep(m) && raft.msgs == [] && raft.BooksOk()
    requires server.AllDecode() && forall e | e in Delivered(m) :: server.Decodes(e)
    requires Remembers(mem, raft.View()) && raft.log.unstable.entries == [] && raft.log.floor == raft.log.committed
    modifies raft, raft.log`committed, raft.log.unstable
    ensures Loops(raft, server) && StepsTo(raft, old(raft.View()), m, raft.msgs)
    ensures server.log.applied == server.appliedIndex && raft.Core()
    ensures raft.log.unstable.snapshot.Some? ==> server.Mach().snap.data == raft.full
    ensures raft.log.unstable.snapshot == None ==> Holds(server.Mach(), raft.full)
    ensures Agrees(old(raft.View()), m) ==> Owes(mem, raft.View(), raft.log.unstable.entries, raft.log.unstable.snapshot)
  {
    hide NodeSpec.Step, IsWindow, Server.StandsFor, Apply.Machine.Good, Apply.Machine.Faithful, TermAt, Numbered, Meet, Joined,
      RaftCore.ProgsOk, RaftCore.Matched, RaftCore.Granted, RaftCore.Refused, RaftCore.SnapshotOk, RaftCore.Bounded,
      Log.Slice, Log.Compacted, Fatal, Proceeds, InLease, RaftCore.LeaderFlow, RaftCore.InOrder, Remembers, Owes, Agrees;
    ghost var n, a, full := raft.View(), server.Mach(), raft.full;
    BeforeStep(raft, server, m);
    raft.Step(m, lease, forward);
    StepLeavesServer(raft, server, n, m, a, full, RaftCore.Since(raft.msgs, 0));
    StillDecodes(raft.cfg, n, m, raft.View(), RaftCore.Since(raft.msgs, 0), a.log.log, server.log.Abs(), server);
    if Agrees(n, m) {
      StepOwes(raft, n, m, RaftCore.Since(raft.msgs, 0), a.log.log, mem);
    }
  }

  /** The loop after a step: the node is steady again. */
  method ComeToRest(raft: RaftCore.Raft, server: Server.Server, wal: Wal, prev: HardState, soft: bool,
                    ghost steps: seq<Step>, ghost told: bool)
    returns (sent: seq<Message>, prev': HardState, ghost steps': seq<Step>)
    requires Loops(raft, server) && raft.Core() && server.log.applied == server.appliedIndex
    requires raft.log.unstable.snapshot.Some? ==> server.Mach().snap.data == raft.full
    requires raft.log.unstable.snapshot == None ==> Holds(server.Mach(), raft.full)
    requires wal.file.crc == wal.codec.crc && (told ==> Tells(wal, steps, raft, server, prev))
    modifies raft`msgs, raft`uncommitted, server, server.log`applied, server.log`floor, server.log.storage, server.log.unstable,
      wal, wal.file`disk, wal.file`buffer, wal.file`fileSize
    ensures AtRest(raft, server) && raft.BooksOk() && server.AllDecode()
    ensures sent == old(raft.msgs) && raft.msgs == [] && raft.View() == old(raft.View())
    ensures told ==> Records(wal, steps', raft, server, prev') && steps <= steps'
  {
    hide IsWindow, Server.StandsFor, Apply.Machine.Good, Apply.Machine.Faithful, TermAt, Numbered, Meet, Joined,
      RaftCore.ProgsOk, RaftCore.Matched, RaftCore.Granted, RaftCore.Refused, RaftCore.SnapshotOk, RaftCore.Bounded,
      Log.Slice, Log.Compacted, RaftCore.InOrder, Keeps, Owes, Changed, Remembers, MemoryAfter;
    ghost var first, w, view := server.Mach(), server.log.Abs(), raft.View();
    sent, prev', steps' := PullReadyEvents(raft, server, wal, prev, soft, steps, told);
    SteadyAgain(w, raft.full, first, server.Mach(), server.log.storage.snapshot);
    assert raft.View() == view;
    PaidOff(MemoryAfter(steps'), view, prev');
  }

  lemma PaidOff(m: Memory, n: Node, prev: HardState)
    requires Changed(prev, StateOf(n)) == EMPTY_STATE
    ensures Owes(m, n, [], None) && prev == m.hs ==> Remembers(m, n) && prev == StateOf(n)
  {
  }

  /**
   * raft_node.cpp:397-409. From one action to the next the node is steady; the step is one of
   * its specification; and in the end everything committed, no more and no less, is in the state
   * machine, storage holds the whole log, and a leader's books are in order. The log file keeps the
   * records of a history whose memory is the node, with all but commit indexes synced. Configuration
   * changes that do not unpack are neither in the log nor delivered (see Apply.CursorKeepsUp).
   */
  method Act(raft: RaftCore.Raft, server: Server.Server, wal: Wal, prev: HardState, m: Message, lease: bool, forward: bool,
             ghost steps: seq<Step>)
    returns (sent: seq<Message>, prev': HardState, ghost steps': seq<Step>)
    requires InStep(raft, server) && raft.CanStep(m) && raft.msgs == [] && raft.BooksOk()
    requires server.AllDecode() && forall e | e in Delivered(m) :: server.Decodes(e)
    requires Records(wal, steps, raft, server, prev)
    modifies raft, server, raft.log, raft.log.storage, raft.log.unstable,
      wal, wal.file`disk, wal.file`buffer, wal.file`fileSize
    ensures AtRest(raft, server) && raft.msgs == [] && raft.BooksOk() && server.AllDecode()
    ensures StepsTo(raft, old(raft.View()), m, sent)
    ensures Agrees(old(raft.View()), m) ==> Records(wal, steps', raft, server, prev') && steps <= steps'
  {
    assert raft.log == server.log && wal.file.crc == wal.codec.crc;
    hide NodeSpec.Step, InStep, AtRest, Loops, Keeps, Owes, Agrees, MemoryAfter, Apply.Machine.Good, Joined, Meet, Numbered,
      RaftCore.Matched, RaftCore.Granted, RaftCore.Refused, RaftCore.InOrder, Fatal;
    ghost var n := raft.View();
    var lead, role := raft.lead, raft.role;
    StepFirst(raft, server, m, lease, forward, MemoryAfter(steps));
    sent, prev', steps' :=
      ComeToRest(raft, server, wal, prev, raft.lead != lead || raft.role != role, steps, Agrees(n, m));
  }
}
