/**
 * The parts of one server action (raft-kv/server/raft_node.cpp:96-133, 397-409): what a step of the
 * raft object takes back and brings, how it leaves the server that shares the log with it, and one
 * round of the Ready loop. Module ReadyLoop puts them together.
 */
module NodeAction {
  import opened Proto
  import opened LogSpec
  import opened UnstableLog
  import opened RaftLog
  import opened LogWindow
  import opened NodeSpec
  import opened Sizes
  import Apply
  import Quota
  import Server
  import RaftCore

  // ---------------------------------------------------------------- what no step takes back

  /** The commit index does not fall, and what was committed is still there. */
  ghost predicate Retains(n: Node, n': Node) {
    && n.commit <= n'.commit && n.commit <= |n.log| && n.commit <= |n'.log|
    && n'.log[..n.commit] == n.log[..n.commit]
  }

  lemma LeaderKeeps(voters: set<Id>, n: Node, ents: seq<Entry>)
    requires n.id in voters && n.commit <= |n.log|
    ensures Retains(n, AppendEntry(voters, n, ents))
    ensures Retains(n, BecomeLeader(voters, n))
    ensures Retains(n, MaybeCommit(voters, n))
  {
  }

  lemma CampaignKeeps(voters: set<Id>, n: Node, force: bool)
    requires n.id in voters && n.commit <= |n.log|
    ensures Retains(n, Campaign(voters, n, force).0)
    ensures Retains(n, PreCampaign(voters, n).0)
  {
    hide MaybeCommit, BecomeLeader;
    LeaderKeeps(voters, Poll(BecomeCandidate(n), n.id, true), []);
    var c := Poll(BecomePreCandidate(n), n.id, true);
    LeaderKeeps(voters, Poll(BecomeCandidate(c), c.id, true), []);
  }

  lemma MergeKeeps(log: seq<Entry>, prev: nat, ents: seq<Entry>, commit: nat)
    requires commit <= |log| && prev >= commit
    ensures commit <= |Merge(log, prev, ents)| && Merge(log, prev, ents)[..commit] == log[..commit]
  {
    hide FindConflict;
    var ci := FindConflict(log, ents);
    if prev < ci <= |log| + 1 && ci - 1 - prev <= |ents| {
      assert (log[..ci - 1] + ents[ci - 1 - prev..])[..commit] == log[..commit];
    }
  }

  lemma HandlingKeeps(n: Node, m: Message)
    requires (m.App? || m.Heartbeat? || m.Snap?) && n.commit <= |n.log|
    ensures Retains(n, HandleFromLeader(n, m).0) || 
      (m.Snap? && n.commit < m.index == HandleFromLeader(n, m).0.commit && HandleFromLeader(n, m).0.log == m.prefix)
  {
    hide Merge;
    if m.App? && m.index >= n.commit {
      MergeKeeps(n.log, m.index, m.entries, n.commit);
    }
  }

  /** Apart from installing a snapshot, a step only ever adds to what is committed. */
  lemma StepKeeps(cfg: Config, n: Node, m: Message, n': Node, out: set<Message>)
    requires cfg.Valid() && n.id in cfg.voters && n.commit <= |n.log| && Step(cfg, n, m, n', out)
    ensures Retains(n, n') || (m.Snap? && n.commit < m.index == n'.commit && n'.log == m.prefix)
  {
    var c := CatchUp(n, m);
    assert c.log == n.log && c.commit == n.commit && c.id == n.id;
    if !(InLease(cfg, n, m) && n' == n) && !(m.TermField() != 0 && m.TermField() < n.term) {
      DispatchKeeps(cfg, c, m, n', out);
    }
  }

  lemma DispatchKeeps(cfg: Config, n: Node, m: Message, n': Node, out: set<Message>)
    requires cfg.Valid() && n.id in cfg.voters && n.commit <= |n.log| && Dispatch(cfg, n, m, n', out)
    ensures Retains(n, n') || (m.Snap? && n.commit < m.index == n'.commit && n'.log == m.prefix)
  {
    hide Campaign, PreCampaign, HandleFromLeader, StepLeader, CountVote;
    if n.role.Leader? && !m.Hup? && !m.Vote? && !m.PreVote? {
      StepLeaderKeeps(cfg, n, m, n', out);
    } else if m.Hup? || m.TimeoutNow? {
      CampaignKeeps(cfg.voters, n, true);
      CampaignKeeps(cfg.voters, n, false);
    } else if m.Vote? || m.PreVote? {
    } else if m.App? || m.Heartbeat? || m.Snap? {
      HandlingKeeps(n.(lead := m.from), m);
      HandlingKeeps(BecomeFollower(n, m.term, m.from), m);
    } else if !n.role.Follower? && (m.VoteResp? || m.PreVoteResp?) && CountVote(cfg, n, m.from, !m.reject, n', out) {
      CountKeeps(cfg, n, m.from, !m.reject, n', out);
    }
  }

  lemma CountKeeps(cfg: Config, n: Node, from: Id, v: bool, n': Node, out: set<Message>)
    requires cfg.Valid() && n.id in cfg.voters && n.commit <= |n.log| && CountVote(cfg, n, from, v, n', out)
    ensures Retains(n, n')
  {
    hide Campaign, BecomeLeader;
    var p := Poll(n, from, v);
    CampaignKeeps(cfg.voters, p, false);
    LeaderKeeps(cfg.voters, p, []);
  }

  lemma StepLeaderKeeps(cfg: Config, n: Node, m: Message, n': Node, out: set<Message>)
    requires cfg.Valid() && n.id in cfg.voters && n.commit <= |n.log| && StepLeader(cfg, n, m, n', out)
    ensures Retains(n, n')
  {
    hide MaybeCommit, AppendEntry, LeaderMay, Heartbeats;
    if m.Prop? && !(n' == n && out == {}) {
      var ents: seq<Entry> :| Screened(m.entries, ents) && n' == AppendEntry(cfg.voters, n, ents);
      LeaderKeeps(cfg.voters, n, ents);
    } else if m.AppResp? && m.from in cfg.voters {
      LeaderKeeps(cfg.voters, n.(matched := n.matched[m.from := m.index]), []);
    }
  }

  /** The term does not fall, and a vote once given in a term stands. */
  ghost predicate KeepsVote(n: Node, n': Node) {
    n.term <= n'.term && (n.term == n'.term && n.vote != NONE ==> n'.vote == n.vote)
  }

  lemma RoleKeepsVote(voters: set<Id>, n: Node, ents: seq<Entry>, force: bool)
    requires n.id in voters
    ensures KeepsVote(n, MaybeCommit(voters, n)) && KeepsVote(n, AppendEntry(voters, n, ents))
    ensures KeepsVote(n, BecomeLeader(voters, n))
    ensures KeepsVote(n, Campaign(voters, n, force).0) && KeepsVote(n, PreCampaign(voters, n).0)
  {
  }

  lemma HandlingKeepsVote(n: Node, m: Message)
    requires m.App? || m.Heartbeat? || m.Snap?
    ensures KeepsVote(n, HandleFromLeader(n, m).0)
  {
    hide Merge;
  }

  lemma CountKeepsVote(cfg: Config, n: Node, from: Id, v: bool, n': Node, out: set<Message>)
    requires cfg.Valid() && n.id in cfg.voters && CountVote(cfg, n, from, v, n', out)
    ensures KeepsVote(n, n')
  {
    hide Campaign, BecomeLeader;
    RoleKeepsVote(cfg.voters, Poll(n, from, v), [], false);
  }

  lemma LeadingKeepsVote(cfg: Config, n: Node, m: Message, n': Node, out: set<Message>)
    requires cfg.Valid() && n.id in cfg.voters && StepLeader(cfg, n, m, n', out)
    ensures KeepsVote(n, n')
  {
    hide MaybeCommit, AppendEntry, LeaderMay, Heartbeats;
    if m.Prop? && !(n' == n && out == {}) {
      var ents: seq<Entry> :| Screened(m.entries, ents) && n' == AppendEntry(cfg.voters, n, ents);
      RoleKeepsVote(cfg.voters, n, ents, false);
    } else if m.AppResp? && m.from in cfg.voters {
      RoleKeepsVote(cfg.voters, n.(matched := n.matched[m.from := m.index]), [], false);
    }
  }

  lemma DispatchKeepsVote(cfg: Config, n: Node, m: Message, n': Node, out: set<Message>)
    requires cfg.Valid() && n.id in cfg.voters && Dispatch(cfg, n, m, n', out)
    requires m.App? || m.Heartbeat? || m.Snap? ==> n.term <= m.term
    ensures KeepsVote(n, n')
  {
    hide Campaign, PreCampaign, HandleFromLeader, StepLeader, CountVote, UpToDate;
    if n.role.Leader? && !m.Hup? && !m.Vote? && !m.PreVote? {
      LeadingKeepsVote(cfg, n, m, n', out);
    } else if m.Hup? || m.TimeoutNow? {
      RoleKeepsVote(cfg.voters, n, [], true);
      RoleKeepsVote(cfg.voters, n, [], false);
    } else if m.App? || m.Heartbeat? || m.Snap? {
      HandlingKeepsVote(n.(lead := m.from), m);
      HandlingKeepsVote(BecomeFollower(n, m.term, m.from), m);
    } else if !n.role.Follower? && (m.VoteResp? || m.PreVoteResp?) && CountVote(cfg, n, m.from, !m.reject, n', out) {
      CountKeepsVote(cfg, n, m.from, !m.reject, n', out);
    }
  }

  /** No step takes back what the hard state says. */
  lemma StepKeepsVote(cfg: Config, n: Node, m: Message, n': Node, out: set<Message>)
    requires cfg.Valid() && n.id in cfg.voters && Step(cfg, n, m, n', out)
    requires m.App? || m.Heartbeat? || m.Snap? ==> m.term > 0
    ensures KeepsVote(n, n')
  {
    hide Dispatch;
    var c := CatchUp(n, m);
    assert c.id == n.id && KeepsVote(n, c);
    if !(InLease(cfg, n, m) && n' == n) && !(m.TermField() != 0 && m.TermField() < n.term) {
      DispatchKeepsVote(cfg, c, m, n', out);
    }
  }

  // ---------------------------------------------------------------- where new entries come from

  /** The entries that a message brings; those of a snapshot never get into the window. */
  function Delivered(m: Message): seq<Entry> {
    if m.App? then m.entries else if m.Prop? then m.entries else []
  }

  /** An entry without a configuration change, or with one that m has brought. */
  ghost predicate Brought(m: Message, e: Entry) {
    e.kind.Normal? || exists x :: x in Delivered(m) && x.kind == e.kind && x.data == e.data
  }

  /** Whatever log' has and log has not was brought by m. */
  ghost predicate Grown(m: Message, log: seq<Entry>, log': seq<Entry>) {
    forall i | 0 <= i < |log'| :: (i < |log| && log'[i] == log[i]) || Brought(m, log'[i])
  }

  lemma AppendGrows(voters: set<Id>, m: Message, n: Node, ents: seq<Entry>)
    requires n.id in voters
    requires forall i | 0 <= i < |ents| :: Brought(m, ents[i])
    ensures Grown(m, n.log, AppendEntry(voters, n, ents).log)
  {
    RaftCore.AppendedLog(voters, n, ents);
    var own := Stamp(n.term, |n.log|, ents);
    forall i | 0 <= i < |own| ensures Brought(m, own[i]) {
      assert Brought(m, ents[i]);
    }
  }

  lemma CampaignGrows(voters: set<Id>, m: Message, n: Node, force: bool)
    requires n.id in voters
    ensures Grown(m, n.log, BecomeLeader(voters, n).log)
    ensures Grown(m, n.log, Campaign(voters, n, force).0.log)
    ensures Grown(m, n.log, PreCampaign(voters, n).0.log)
  {
    forall p: Node | p.id in voters && p.log == n.log ensures Grown(m, n.log, BecomeLeader(voters, p).log) {
      AppendGrows(voters, m, Reset(p, p.term).(lead := p.id, role := Leader), [NOOP]);
    }
    hide BecomeLeader;
  }

  lemma MergeGrows(m: Message, log: seq<Entry>)
    requires m.App?
    ensures Grown(m, log, Merge(log, m.index, m.entries))
  {
    hide FindConflict;
    forall i | 0 <= i < |m.entries| ensures Brought(m, m.entries[i]) {
      assert m.entries[i] in Delivered(m);
    }
  }

  lemma StepLeaderGrows(cfg: Config, n: Node, m: Message, n': Node, out: set<Message>)
    requires cfg.Valid() && n.id in cfg.voters && StepLeader(cfg, n, m, n', out)
    ensures Grown(m, n.log, n'.log)
  {
    hide AppendEntry, LeaderMay, Heartbeats;
    if m.Prop? && !(n' == n && out == {}) {
      var ents: seq<Entry> :| Screened(m.entries, ents) && n' == AppendEntry(cfg.voters, n, ents);
      forall i | 0 <= i < |ents| ensures Brought(m, ents[i]) {
        assert m.entries[i] in Delivered(m);
      }
      AppendGrows(cfg.voters, m, n, ents);
    }
  }

  lemma DispatchGrows(cfg: Config, n: Node, m: Message, n': Node, out: set<Message>)
    requires cfg.Valid() && n.id in cfg.voters && Dispatch(cfg, n, m, n', out)
    ensures Grown(m, n.log, n'.log) || (m.Snap? && n.commit < m.index == n'.commit && n'.log == m.prefix)
  {
    hide Campaign, PreCampaign, HandleFromLeader, StepLeader, CountVote, Grown;
    if n.role.Leader? && !m.Hup? && !m.Vote? && !m.PreVote? {
      StepLeaderGrows(cfg, n, m, n', out);
    } else if m.Hup? || m.TimeoutNow? {
      NothingGrows(m, n.log);
      CampaignGrows(cfg.voters, m, n, true);
      CampaignGrows(cfg.voters, m, n, false);
    } else if m.Vote? || m.PreVote? {
      NothingGrows(m, n.log);
    } else if m.App? || m.Heartbeat? || m.Snap? {
      HandlingGrows(n.(lead := m.from), m);
      HandlingGrows(BecomeFollower(n, m.term, m.from), m);
    } else if !n.role.Follower? && (m.VoteResp? || m.PreVoteResp?) && CountVote(cfg, n, m.from, !m.reject, n', out) {
      CountGrows(cfg, n, m, n', out);
    } else {
      NothingGrows(m, n.log);
    }
  }

  lemma NothingGrows(m: Message, log: seq<Entry>)
    ensures Grown(m, log, log)
  {
  }

  lemma HandlingGrows(n: Node, m: Message)
    requires m.App? || m.Heartbeat? || m.Snap?
    ensures Grown(m, n.log, HandleFromLeader(n, m).0.log)
      || (m.Snap? && n.commit < m.index == HandleFromLeader(n, m).0.commit && HandleFromLeader(n, m).0.log == m.prefix)
  {
    hide Merge, Grown;
    NothingGrows(m, n.log);
    if m.App? {
      MergeGrows(m, n.log);
    }
  }

  lemma CountGrows(cfg: Config, n: Node, m: Message, n': Node, out: set<Message>)
    requires cfg.Valid() && n.id in cfg.voters && (m.VoteResp? || m.PreVoteResp?)
    requires CountVote(cfg, n, m.from, !m.reject, n', out)
    ensures Grown(m, n.log, n'.log)
  {
    hide Campaign, BecomeLeader, Grown;
    NothingGrows(m, n.log);
    CampaignGrows(cfg.voters, m, Poll(n, m.from, !m.reject), false);
  }

  lemma StepGrows(cfg: Config, n: Node, m: Message, n': Node, out: set<Message>)
    requires cfg.Valid() && n.id in cfg.voters && Step(cfg, n, m, n', out)
    ensures Grown(m, n.log, n'.log) || (m.Snap? && n.commit < m.index == n'.commit && n'.log == m.prefix)
  {
    hide Dispatch;
    var c := CatchUp(n, m);
    assert c.log == n.log && c.commit == n.commit && c.id == n.id;
    if !(InLease(cfg, n, m) && n' == n) && !(m.TermField() != 0 && m.TermField() < n.term) {
      DispatchGrows(cfg, c, m, n', out);
    }
  }

  // ---------------------------------------------------------------- the two sides fit together

  /** The state machine holds a prefix of the whole log, and both cursors stand at its end. */
  ghost predicate Holds(a: Apply.Machine, full: seq<Entry>) {
    a.cursor <= |full| && a.store == full[..a.cursor] && a.log.applied == a.cursor
  }

  lemma StillGood(a: Apply.Machine, full: seq<Entry>, log': LogState, full': seq<Entry>, s: Snapshot)
    requires a.Good() && !a.log.pending && Holds(a, full) && IsWindow(a.log.log, full)
    requires log'.Valid() && !log'.pending && IsWindow(log'.log, full')
    requires log'.log.base == a.log.log.base && log'.applied == a.log.applied
    requires a.log.committed <= log'.committed && a.log.committed <= |full| && a.log.committed <= |full'|
    requires full'[..a.log.committed] == full[..a.log.committed]
    requires Server.StandsFor(s, a.store, a.log.log) && a.log.log.base <= s.index
    ensures var a' := Apply.Machine(log', Apply.NOTHING, a.cursor, a.store);
      a'.Good() && Holds(a', full') && Server.StandsFor(s, a.store, log'.log)
  {
    WindowFacts(a.log.log, full);
    WindowFacts(log'.log, full');
    var n := a.log.committed;
    assert forall i | 0 <= i < n :: full'[i] == full'[..n][i] && full[i] == full[..n][i];
    var a' := Apply.Machine(log', Apply.NOTHING, a.cursor, a.store);
    forall i | log'.log.base < i <= a.cursor ensures log'.log.Holds(i) && log'.log.At(i) == a.store[i - 1] {
      assert log'.log.At(i) == full'[i - 1];
      assert a.store[i - 1] == full[i - 1];
    }
    assert a.store == full'[..a.cursor];
    assert TermAt(full', s.index) == TermAt(full, s.index);
  }

  lemma RestoredGood(a: Apply.Machine, full: seq<Entry>, log': LogState, s: Snapshot)
    requires a.Good() && Holds(a, full)
    requires log'.Valid() && log'.pending && IsWindow(log'.log, s.data) && log'.log.base == s.index
    requires log'.applied == a.log.applied && s.index > a.log.committed && log'.committed == s.index
    requires |s.data| == s.index && Numbered(s.data, 1)
    ensures Apply.Machine(log', s, a.cursor, a.store).Good()
  {
  }

  /** After the drain the node is steady again. */
  lemma SteadyAgain(w: Log, full: seq<Entry>, first: Apply.Machine, a: Apply.Machine, s: Snapshot)
    requires IsWindow(w, full) && first.log.log == w && first.Good()
    requires first.log.pending ==> first.snap.data == full
    requires !first.log.pending ==> first.store == full[..first.cursor] && first.cursor <= |full|
    requires a.Good() && !a.log.pending && w.base <= a.log.log.base <= w.Last() && a.log.log == w.Compacted(a.log.log.base)
    requires w.base <= first.Resumed() <= a.cursor && a.cursor == a.log.committed
    requires a.cursor <= w.Last() && a.store == first.ResumedStore() + w.Slice(first.Resumed() + 1, a.cursor + 1)
    requires Server.StandsFor(s, a.store, a.log.log) && a.log.log.base <= s.index <= a.cursor
    ensures IsWindow(a.log.log, full)
    ensures a.cursor <= |full| && a.store == full[..a.cursor]
    ensures RaftCore.SnapshotOk(s, full, a.log.log.base, a.log.committed)
  {
    hide Apply.Machine.Good, Numbered, Log.TermAt, TermAt, Log.Slice;
    WindowFacts(w, full);
    WindowCompacted(w, full, a.log.log.base);
    WindowFacts(a.log.log, full);
    WindowSlice(w, full, first.Resumed() + 1, a.cursor + 1);
    ResumedIsPrefix(first, full);
    assert full[..first.Resumed()] + full[first.Resumed()..a.cursor] == full[..a.cursor];
    assert a.store[..s.index] == full[..s.index];
  }

  lemma ResumedIsPrefix(first: Apply.Machine, full: seq<Entry>)
    requires first.Good() && IsWindow(first.log.log, full)
    requires first.log.pending ==> first.snap.data == full
    requires !first.log.pending ==> first.store == full[..first.cursor] && first.cursor <= |full|
    ensures first.Resumed() <= |full| && first.ResumedStore() == full[..first.Resumed()]
  {
    if first.log.pending {
      assert full[..first.Resumed()] == full;
    }
  }

  ghost predicate InStep(raft: RaftCore.Raft, server: Server.Server)
    reads raft, server, raft.log, raft.log.storage, raft.log.unstable, server.log, server.log.storage, server.log.unstable
  {
    && raft.log == server.log
    && raft.Steady() && server.Valid()
    && Holds(server.Mach(), raft.full)
  }

  /** The server side survives whatever the step did to the log. */
  lemma StepLeavesServer(raft: RaftCore.Raft, server: Server.Server, n: Node, m: Message, a: Apply.Machine,
                         full: seq<Entry>, out: set<Message>)
    requires raft.log == server.log && raft.Valid() && raft.Settles(m, n.commit, full) && RaftCore.WellSent(m)
    requires raft.cfg.Valid() && n.id in raft.cfg.voters && n.log == full && n.commit == a.log.committed
    requires Step(raft.cfg, n, m, raft.View(), out)
    requires a.Good() && !a.log.pending && Holds(a, full) && IsWindow(a.log.log, full)
    requires server.appliedIndex == a.cursor && server.store == a.store && raft.log.applied == a.log.applied
    requires raft.log.storage.Valid() && raft.log.storage.Abs().base == a.log.log.base
    requires Server.StandsFor(raft.log.storage.snapshot, a.store, a.log.log)
    requires server.snapshotIndex == raft.log.storage.snapshot.index
    requires raft.log.storage.Abs().base <= server.snapshotIndex <= server.appliedIndex
    ensures server.Valid()
    ensures raft.log.unstable.snapshot.Some? ==> server.Mach().snap.data == raft.full
    ensures raft.log.unstable.snapshot == None ==> Holds(server.Mach(), raft.full)
    ensures server.log.applied == server.appliedIndex
    ensures Continues(m, a.log.log, full, raft.log.Abs(), raft.full)
  {
    hide Step, IsWindow, Server.StandsFor, Apply.Machine.Good, Apply.Machine.Faithful, TermAt, Numbered, Meet, Joined,
      RaftCore.ProgsOk, RaftCore.Matched, RaftCore.Granted, RaftCore.Refused, RaftCore.SnapshotOk;
    CommitWithin(a, full);
    StepKeeps(raft.cfg, n, m, raft.View(), out);
    JoinedBase(raft.log);
    if raft.log.unstable.snapshot == None {
      StillGood(a, full, raft.log.State(), raft.full, raft.log.storage.snapshot);
    } else {
      RestoredGood(a, full, raft.log.State(), raft.log.unstable.snapshot.value);
    }
  }

  lemma CommitWithin(a: Apply.Machine, full: seq<Entry>)
    requires a.Good() && IsWindow(a.log.log, full)
    ensures a.log.committed <= |full|
  {
    WindowFacts(a.log.log, full);
  }

  lemma JoinedBase(log: RaftLog)
    requires log.TiersOk()
    ensures log.Abs().base ==
      if log.unstable.snapshot.Some? then log.unstable.snapshot.value.index else log.storage.Abs().base
  {
  }

  /** Nothing is left to save, and the state machine has absorbed exactly what is committed. */
  ghost predicate AtRest(raft: RaftCore.Raft, server: Server.Server)
    reads raft, server, raft.log, raft.log.storage, raft.log.unstable, server.log, server.log.storage, server.log.unstable
  {
    && InStep(raft, server) && server.Settled()
    && raft.log.committed <= |raft.full| && server.store == raft.full[..raft.log.committed]
  }

  /** The node went from n to where it is, and its messages were taken to be sent. */
  ghost predicate StepsTo(raft: RaftCore.Raft, n: Node, m: Message, sent: seq<Message>)
    reads raft, raft.log
  {
    && raft.cfg.Valid() && n.id in raft.cfg.voters
    && Step(raft.cfg, n, m, raft.View(), RaftCore.Since(sent, 0))
  }

  /** The window still starts where it did, or is empty behind a snapshot. */
  ghost predicate Continues(m: Message, w: Log, full: seq<Entry>, w': Log, full': seq<Entry>) {
    || (w'.base == w.base && (m.Snap? ==> full' == full))
    || (m.Snap? && w'.base == m.index && full' == m.prefix && |m.prefix| == m.index)
  }

  /** What is in the window now was there before, or was brought by m. */
  lemma WindowGrows(m: Message, w: Log, full: seq<Entry>, w': Log, full': seq<Entry>, e: Entry)
    requires IsWindow(w, full) && IsWindow(w', full') && Continues(m, w, full, w', full')
    requires Grown(m, full, full') || (m.Snap? && full' == m.prefix)
    requires e in w'.entries
    ensures e in w.entries || Brought(m, e)
  {
    hide Brought;
    var i :| 0 <= i < |w'.entries| && w'.entries[i] == e;
    assert e == full'[w'.base + i];
    if w'.base == w.base && w.base + i < |full| && full'[w.base + i] == full[w.base + i] {
      assert w.entries[i] == full[w.base + i];
    }
  }

  /** After a step everything in the window can still be made sense of. */
  lemma StillDecodes(cfg: Config, n: Node, m: Message, n': Node, out: set<Message>, w: Log, w': Log, server: Server.Server)
    requires cfg.Valid() && n.id in cfg.voters && Step(cfg, n, m, n', out)
    requires IsWindow(w, n.log) && IsWindow(w', n'.log) && Continues(m, w, n.log, w', n'.log)
    requires forall e | e in w.entries :: server.Decodes(e)
    requires forall e | e in Delivered(m) :: server.Decodes(e)
    ensures forall e | e in w'.entries :: server.Decodes(e)
  {
    StepGrows(cfg, n, m, n', out);
    hide Step, Grown, IsWindow, Continues;
    forall e | e in w'.entries ensures server.Decodes(e) {
      WindowGrows(m, w, n.log, w', n'.log, e);
    }
  }

  /** What the Ready loop needs to know of the object, beside the log they share. */
  ghost predicate Loops(raft: RaftCore.Raft, server: Server.Server)
    reads raft, server, raft.log, raft.log.storage, raft.log.unstable, server.log, server.log.storage, server.log.unstable
  {
    && raft.log == server.log && server.Valid() && server.AllDecode()
    && IsWindow(server.log.Abs(), raft.full)
    && raft.BooksOk()
    && (raft.role.Leader? ==>
          server.log.unstable.snapshot == None && server.log.Abs().base <= server.log.applied == server.appliedIndex)
  }

  /** What a leader hands out in one cycle comes off the books. */
  lemma HandsOut(a: Apply.Machine, full: seq<Entry>, max: nat, uncommitted: nat, pending: nat)
    requires a.Good() && !a.log.pending && IsWindow(a.log.log, full) && a.log.log.base <= a.log.applied
    requires RaftCore.InOrder(full, a.log.applied, uncommitted, pending)
    ensures RaftCore.InOrder(full, a.log.Cursor(max), Quota.Reduced(uncommitted, a.log.NextEntries(max)), pending)
  {
    var start: nat :| Quota.Books(full, start, a.log.applied, uncommitted, pending).Ok();
    var b := Quota.Books(full, start, a.log.applied, uncommitted, pending);
    BatchOfFull(a, full, max);
    hide Quota.Books.Ok, LogState.NextEntries, IsWindow, Apply.Machine.Good;
    Quota.HandOutKeeps(b, a.log.Cursor(max));
    assert Quota.After(b, Quota.HandOut(a.log.Cursor(max)))
      == Quota.Books(full, start, a.log.Cursor(max), Quota.Reduced(uncommitted, a.log.NextEntries(max)), pending);
  }

  lemma BatchOfFull(a: Apply.Machine, full: seq<Entry>, max: nat)
    requires a.Good() && !a.log.pending && IsWindow(a.log.log, full) && a.log.log.base <= a.log.applied
    ensures a.log.applied <= a.log.Cursor(max) <= |full|
    ensures a.log.NextEntries(max) == full[a.log.applied..a.log.Cursor(max)]
  {
    hide IsLimited, Limited, Apply.Machine.Faithful, LogState.NextEntries, Log.Slice, Numbered;
    WindowFacts(a.log.log, full);
    CursorInRange(a.log, max);
    var low, batch := a.log.NextIndex(), a.log.NextEntries(max);
    assert low == a.log.applied + 1;
    PrefixOfSlice(a.log.log, low, low + |batch|, batch);
    WindowSlice(a.log.log, full, low, low + |batch|);
  }

  /** One Ready: its messages are taken, its batch comes off the books, and it is saved and applied. */
  method OneCycle(raft: RaftCore.Raft, server: Server.Server) returns (k: nat)
    requires Loops(raft, server)
    modifies raft`msgs, raft`uncommitted, server, server.log`applied, server.log`floor, server.log.storage, server.log.unstable
    ensures Loops(raft, server) && raft.msgs == []
    ensures raft.uncommitted == Quota.Reduced(old(raft.uncommitted), old(server.Mach()).log.NextEntries(server.log.maxNextSize))
    ensures old(server.Mach()).CanCompact(server.log.maxNextSize, k) && !old(server.Mach()).Gap(server.log.maxNextSize)
    ensures server.Mach() == old(server.Mach()).Cycle(server.log.maxNextSize, k)
    ensures server.log.unstable.snapshot == None && server.log.unstable.entries == []
    ensures server.log.storage.Abs() == server.log.Abs() && server.log.floor == server.log.committed
    ensures var marked := if old(server.log.unstable.snapshot).Some? then old(server.log.unstable.snapshot).value.index
                          else old(server.snapshotIndex);
      server.snapshotIndex == marked || marked < server.snapshotIndex == server.appliedIndex
  {
    hide Apply.Machine.Faithful, Apply.Machine.Cycle, Log.Compacted, Joined, Numbered, LogState.NextEntries, Log.Slice,
      Apply.Machine.Good, Server.StandsFor, IsWindow, RaftCore.InOrder;
    ghost var a, uncommitted := server.Mach(), raft.uncommitted;
    raft.msgs := [];
    var cut, batch := server.Cycle();
    k := cut;
    raft.ReduceUncommitted(batch);
    CycleLoops(a, raft.full, server.log.maxNextSize, k);
    if raft.role.Leader? {
      HandsOut(a, raft.full, server.log.maxNextSize, uncommitted, raft.pendingConf);
    }
  }

  lemma CycleLoops(a: Apply.Machine, full: seq<Entry>, max: nat, k: nat)
    requires a.Good() && a.CanCompact(max, k) && !a.Gap(max) && IsWindow(a.log.log, full)
    ensures IsWindow(a.Cycle(max, k).log.log, full)
    ensures !a.log.pending && a.log.applied == a.cursor ==>
      a.Cycle(max, k).log.applied == a.log.Cursor(max) == a.Cycle(max, k).cursor >= k
  {
    hide LogState.NextEntries;
    WindowCompacted(a.log.log, full, k);
    if !a.log.pending && a.log.applied == a.cursor {
      CursorInRange(a.log, max);
      Apply.TogetherStep(a, Apply.Event.Cycle(max, k));
    }
  }

  lemma BeforeStep(raft: RaftCore.Raft, server: Server.Server, m: Message)
    requires InStep(raft, server) && raft.CanStep(m)
    ensures RaftCore.WellSent(m) && raft.cfg.Valid() && raft.id in raft.cfg.voters
    ensures var a := server.Mach();
      && a.Good() && !a.log.pending && IsWindow(a.log.log, raft.full)
      && raft.log.storage.Valid() && raft.log.storage.Abs().base == a.log.log.base
      && Server.StandsFor(raft.log.storage.snapshot, a.store, a.log.log)
      && (raft.log.unstable.entries == [] ==> raft.log.storage.Abs() == a.log.log)
  {
    JoinedBase(raft.log);
    SavedIsJoined(raft.log.storage.Abs(), raft.log.unstable.offset, raft.log.unstable.entries);
  }
}
