/**
 * What one node does with one message (raft-kv/raft/raft.cpp), on values.
 *
 * A Node holds the fields the consensus argument depends on. Elapsed ticks, recent_active, the
 * send window (next, inflights, paused) and the size quota decide only whether, and in which
 * slices, a leader sends; Step leaves those choices open (see LeaderMay) and fixes the rest.
 */
module NodeSpec {
  import opened Proto
  import Quorum

  datatype Role = Follower | PreCandidate | Candidate | Leader

  /** guarded says whether a candidate counts only the response type of its own candidacy. */
  datatype Config = Config(voters: set<Id>, checkQuorum: bool, preVote: set<Id>, guarded: bool) {
    ghost predicate Valid() {
      voters != {} && NONE !in voters && preVote <= voters
    }
  }

  datatype Node = Node(
    id: Id, term: Term, vote: Id, role: Role, lead: Id, granted: set<Id>, refused: set<Id>,
    log: seq<Entry>, commit: nat, matched: map<Id, nat>)

  // ---------------------------------------------------------------- the log

  /** RaftLog::term on an uncompacted log: 0 at index 0 and beyond the end. */
  function TermAt(log: seq<Entry>, index: nat): Term {
    if 1 <= index <= |log| then log[index - 1].term else 0
  }

  function LastTerm(log: seq<Entry>): Term { TermAt(log, |log|) }

  /** RaftLog::is_up_to_date. */
  predicate UpToDate(log: seq<Entry>, index: nat, logTerm: Term) {
    logTerm > LastTerm(log) || (logTerm == LastTerm(log) && index >= |log|)
  }

  /** RaftLog::find_conflict: index of the first entry the log does not hold, 0 if it holds all. */
  function FindConflict(log: seq<Entry>, entries: seq<Entry>): nat {
    if entries == [] then 0
    else if TermAt(log, entries[0].index) != entries[0].term then entries[0].index
    else FindConflict(log, entries[1..])
  }

  /** The log after RaftLog::maybe_append has accepted entries that follow index prev. */
  function Merge(log: seq<Entry>, prev: nat, entries: seq<Entry>): seq<Entry> {
    var ci := FindConflict(log, entries);
    if prev < ci <= |log| + 1 && ci - 1 - prev <= |entries| then log[..ci - 1] + entries[ci - 1 - prev..]
    else log
  }

  /** Raft::append_entry's numbering of proposed entries. */
  function Stamp(term: Term, last: nat, entries: seq<Entry>): (s: seq<Entry>)
    ensures |s| == |entries|
    ensures forall i | 0 <= i < |s| ::
      s[i] == Entry(entries[i].kind, term, last + 1 + i, entries[i].data)
  {
    seq(|entries|, i requires 0 <= i < |entries| => Entry(entries[i].kind, term, last + 1 + i, entries[i].data))
  }

  // ---------------------------------------------------------------- role changes

  /** Raft::reset: progress starts over, and only the node itself is known to hold its log. */
  function Reset(n: Node, term: Term): Node {
    n.(term := term, vote := if term != n.term then NONE else n.vote, lead := NONE,
       granted := {}, refused := {}, matched := map[n.id := |n.log|])
  }

  function BecomeFollower(n: Node, term: Term, lead: Id): Node {
    Reset(n, term).(lead := lead, role := Follower)
  }

  function BecomeCandidate(n: Node): Node {
    Reset(n, n.term + 1).(vote := n.id, role := Candidate)
  }

  function BecomePreCandidate(n: Node): Node {
    n.(granted := {}, refused := {}, lead := NONE, role := PreCandidate)
  }

  /** Raft::maybe_commit: advance to the majority index if its entry is of the leader's own term. */
  ghost function MaybeCommit(voters: set<Id>, n: Node): Node
    requires voters != {}
  {
    var k := Quorum.MajorityIndex(voters, n.matched);
    if k > n.commit && TermAt(n.log, k) == n.term then n.(commit := k) else n
  }

  ghost function AppendEntry(voters: set<Id>, n: Node, entries: seq<Entry>): Node
    requires n.id in voters
  {
    var log := n.log + Stamp(n.term, |n.log|, entries);
    MaybeCommit(voters, n.(log := log, matched := n.matched[n.id := Max(Quorum.Known(n.matched, n.id), |log|)]))
  }

  const NOOP := Entry(Normal, 0, 0, [])

  ghost function BecomeLeader(voters: set<Id>, n: Node): Node
    requires n.id in voters
  {
    AppendEntry(voters, Reset(n, n.term).(lead := n.id, role := Leader), [NOOP])
  }

  // ---------------------------------------------------------------- elections

  /** Raft::poll: the first answer of a voter counts. */
  function Poll(n: Node, from: Id, v: bool): Node {
    if from in n.granted || from in n.refused then n
    else if v then n.(granted := n.granted + {from})
    else n.(refused := n.refused + {from})
  }

  function VoteRequests(voters: set<Id>, n: Node, force: bool): set<Message> {
    set j | j in voters && j != n.id :: Vote(n.id, j, n.term, |n.log|, LastTerm(n.log), force)
  }

  function PreVoteRequests(voters: set<Id>, n: Node): set<Message> {
    set j | j in voters && j != n.id :: PreVote(n.id, j, n.term + 1, |n.log|, LastTerm(n.log))
  }

  /** Raft::campaign for a real election; force marks a leadership transfer. */
  ghost function Campaign(voters: set<Id>, n: Node, force: bool): (Node, set<Message>)
    requires n.id in voters
  {
    var c := Poll(BecomeCandidate(n), n.id, true);
    if Quorum.Size(voters) == |c.granted| then (BecomeLeader(voters, c), {})
    else (c, VoteRequests(voters, c, force))
  }

  ghost function PreCampaign(voters: set<Id>, n: Node): (Node, set<Message>)
    requires n.id in voters
  {
    var c := Poll(BecomePreCandidate(n), n.id, true);
    if Quorum.Size(voters) == |c.granted| then Campaign(voters, c, false)
    else (c, PreVoteRequests(voters, c))
  }

  /** The answer to MsgVote and MsgPreVote, in any role (raft.cpp:418-497). */
  function HandleVote(n: Node, m: Message): (Node, set<Message>)
    requires m.Vote? || m.PreVote?
  {
    var canVote := n.vote == m.from || (n.vote == NONE && n.lead == NONE) || (m.PreVote? && m.term > n.term);
    if canVote && UpToDate(n.log, m.index, m.logTerm) then
      if m.Vote? then (n.(vote := m.from), {VoteResp(n.id, m.from, m.term, false)})
      else (n, {PreVoteResp(n.id, m.from, m.term, false)})
    else
      (n, {if m.Vote? then VoteResp(n.id, m.from, n.term, true) else PreVoteResp(n.id, m.from, n.term, true)})
  }

  // ---------------------------------------------------------------- replication, follower side

  function Ack(n: Node, to: Id, index: nat): Message {
    AppResp(n.id, to, n.term, index, false, 0)
  }

  predicate Accepts(n: Node, m: Message)
    requires m.App?
  {
    m.index >= n.commit && TermAt(n.log, m.index) == m.logTerm
  }

  /** RaftLog::maybe_append and commit_to on an accepted append. */
  function Accepted(n: Node, m: Message): Node
    requires m.App?
  {
    n.(log := Merge(n.log, m.index, m.entries),
       commit := Max(n.commit, Min(m.commit, m.index + |m.entries|)))
  }

  /** Raft::handle_append_entries. */
  function HandleAppend(n: Node, m: Message): (Node, set<Message>)
    requires m.App?
  {
    if m.index < n.commit then (n, {Ack(n, m.from, n.commit)})
    else if Accepts(n, m) then (Accepted(n, m), {Ack(n, m.from, m.index + |m.entries|)})
    else (n, {AppResp(n.id, m.from, n.term, m.index, true, |n.log|)})
  }

  /** Raft::handle_heartbeat. */
  function HandleHeartbeat(n: Node, m: Message): (Node, set<Message>)
    requires m.Heartbeat?
  {
    (n.(commit := Max(n.commit, m.commit)), {HeartbeatResp(n.id, m.from, n.term)})
  }

  /** Raft::handle_snapshot and restore; the answer carries index 0 in every case (raft.cpp:1080-1092). */
  function HandleSnapshot(n: Node, m: Message): (Node, set<Message>)
    requires m.Snap?
  {
    var reply := {Ack(n, m.from, 0)};
    if m.index <= n.commit then (n, reply)
    else if TermAt(n.log, m.index) == m.logTerm then (n.(commit := m.index), reply)
    else
      (n.(log := m.prefix, commit := m.index, matched := map[n.id := |m.prefix|]), reply)
  }

  function HandleFromLeader(n: Node, m: Message): (Node, set<Message>)
    requires m.App? || m.Heartbeat? || m.Snap?
  {
    match m
    case App(_, _, _, _, _, _, _) => HandleAppend(n, m)
    case Heartbeat(_, _, _, _) => HandleHeartbeat(n, m)
    case Snap(_, _, _, _, _, _) => HandleSnapshot(n, m)
  }

  /**
   * When handling m reaches one of the LOG_FATALs of the log: a conflict at or below the commit
   * index or a gap (raft_log.cpp:41-42, unstable.cpp:120-122), or a commit index beyond the last
   * entry (raft_log.cpp:189-193).
   */
  predicate LogFatal(n: Node, m: Message)
    requires m.App? || m.Heartbeat? || m.Snap?
  {
    match m
    case App(_, _, _, index, _, entries, commit) =>
      && Accepts(n, m)
      && var ci := FindConflict(n.log, entries);
         || (ci != 0 && (ci <= n.commit || ci > |n.log| + 1))
         || (Min(commit, index + |entries|) > n.commit
             && Min(commit, index + |entries|) > |Merge(n.log, index, entries)|)
    case Heartbeat(_, _, _, commit) => commit > n.commit && commit > |n.log|
    case Snap(_, _, _, index, logTerm, _) =>
      index > n.commit && TermAt(n.log, index) == logTerm && index > |n.log|
  }

  // ---------------------------------------------------------------- replication, leader side

  /**
   * What leader n may put on the wire while serving its followers: a slice of its log with the
   * index and term just before it, a snapshot of a committed prefix, or the leadership hand-over.
   * Which of them maybe_send_append picks is the send window's business.
   */
  ghost predicate LeaderMay(voters: set<Id>, n: Node, m: Message) {
    match m
    case App(from, to, term, index, logTerm, entries, commit) =>
      && from == n.id && to in voters && to != n.id && term == n.term
      && index + |entries| <= |n.log|
      && logTerm == TermAt(n.log, index)
      && entries == n.log[index..index + |entries|]
      && commit == n.commit
    case Snap(from, to, term, index, logTerm, prefix) =>
      && from == n.id && to in voters && to != n.id && term == n.term
      && 1 <= index <= n.commit && index <= |n.log|
      && logTerm == TermAt(n.log, index)
      && prefix == n.log[..index]
    case TimeoutNow(from, to, term) => from == n.id && to in voters && to != n.id && term == n.term
    case _ => false
  }

  ghost predicate LeaderSends(voters: set<Id>, n: Node, out: set<Message>) {
    forall m | m in out :: LeaderMay(voters, n, m)
  }

  /** Raft::bcast_heartbeat: each follower learns min(match, committed). */
  function Heartbeats(voters: set<Id>, n: Node): set<Message> {
    set j | j in voters && j != n.id :: Heartbeat(n.id, j, n.term, Min(Quorum.Known(n.matched, j), n.commit))
  }

  // ---------------------------------------------------------------- step

  /** Raft::step, the comparison of terms: the node that goes on to handle m. */
  function CatchUp(n: Node, m: Message): Node {
    if m.TermField() <= n.term then n
    else if m.PreVote? || (m.PreVoteResp? && !m.reject) then n
    else if m.App? || m.Heartbeat? || m.Snap? then BecomeFollower(n, m.term, m.from)
    else BecomeFollower(n, m.term, NONE)
  }

  /** Raft::step, messages of an older term. */
  function StaleReply(cfg: Config, n: Node, m: Message): set<Message> {
    if (cfg.checkQuorum || n.id in cfg.preVote) && (m.Heartbeat? || m.App?) then {Ack(n, m.from, 0)}
    else if m.PreVote? then {PreVoteResp(n.id, m.from, n.term, true)}
    else {}
  }

  /** A proposed configuration change may have been replaced by an empty entry (raft.cpp:539-556). */
  predicate Screened(entries: seq<Entry>, ents: seq<Entry>) {
    && |ents| == |entries|
    && forall i | 0 <= i < |ents| ::
         || ents[i] == entries[i]
         || (entries[i].kind.ConfChange? && ents[i] == NOOP)
  }

  /** Raft::step_leader. */
  ghost predicate StepLeader(cfg: Config, n: Node, m: Message, n': Node, out: set<Message>)
    requires cfg.Valid() && n.id in cfg.voters
  {
    match m
    case Beat => n' == n && out == Heartbeats(cfg.voters, n)
    case CheckQuorum => out == {} && (n' == n || n' == BecomeFollower(n, n.term, NONE))
    case Prop(_, _, entries) =>
      || (n' == n && out == {})
      || (exists ents: seq<Entry> ::
            && Screened(entries, ents)
            && n' == AppendEntry(cfg.voters, n, ents) && LeaderSends(cfg.voters, n', out))
    case AppResp(from, _, _, index, reject, _) =>
      if from !in cfg.voters then n' == n && out == {}
      else if reject || index <= Quorum.Known(n.matched, from) then n' == n && LeaderSends(cfg.voters, n', out)
      else
        && n' == MaybeCommit(cfg.voters, n.(matched := n.matched[from := index]))
        && LeaderSends(cfg.voters, n', out)
    case HeartbeatResp(_, _, _) => n' == n && LeaderSends(cfg.voters, n', out)
    case Unreachable(_) => n' == n && out == {}
    case SnapStatus(_, _) => n' == n && out == {}
    case TransferLeader(_) => n' == n && LeaderSends(cfg.voters, n', out)
    case _ => n' == n && out == {}
  }

  /** Raft::step_candidate, shared by candidates and pre-candidates. */
  ghost predicate StepCandidate(cfg: Config, n: Node, m: Message, n': Node, out: set<Message>)
    requires cfg.Valid() && n.id in cfg.voters && !n.role.Follower? && !n.role.Leader?
  {
    match m
    case App(_, _, _, _, _, _, _) =>
      (n', out) == HandleFromLeader(BecomeFollower(n, m.term, m.from), m)
    case Heartbeat(_, _, _, _) =>
      (n', out) == HandleFromLeader(BecomeFollower(n, m.term, m.from), m)
    case Snap(_, _, _, _, _, _) =>
      (n', out) == HandleFromLeader(BecomeFollower(n, m.term, m.from), m)
    case VoteResp(from, _, _, reject) =>
      if cfg.guarded && !n.role.Candidate? then n' == n && out == {}
      else CountVote(cfg, n, from, !reject, n', out)
    case PreVoteResp(from, _, _, reject) =>
      if cfg.guarded && !n.role.PreCandidate? then n' == n && out == {}
      else CountVote(cfg, n, from, !reject, n', out)
    case _ => n' == n && out == {}
  }

  ghost predicate CountVote(cfg: Config, n: Node, from: Id, v: bool, n': Node, out: set<Message>)
    requires cfg.Valid() && n.id in cfg.voters
  {
    var p := Poll(n, from, v);
    if Quorum.Size(cfg.voters) == |p.granted| then
      if p.role.PreCandidate? then (n', out) == Campaign(cfg.voters, p, false)
      else n' == BecomeLeader(cfg.voters, p) && LeaderSends(cfg.voters, n', out)
    else if Quorum.Size(cfg.voters) == |p.refused| then
      n' == BecomeFollower(p, p.term, NONE) && out == {}
    else n' == p && out == {}
  }

  /** Raft::step_follower. */
  ghost predicate StepFollower(cfg: Config, n: Node, m: Message, n': Node, out: set<Message>)
    requires cfg.Valid() && n.id in cfg.voters
  {
    match m
    case App(_, _, _, _, _, _, _) => (n', out) == HandleFromLeader(n.(lead := m.from), m)
    case Heartbeat(_, _, _, _) => (n', out) == HandleFromLeader(n.(lead := m.from), m)
    case Snap(_, _, _, _, _, _) => (n', out) == HandleFromLeader(n.(lead := m.from), m)
    case TimeoutNow(_, _, _) => (n', out) == Campaign(cfg.voters, n, true)
    case Prop(_, _, entries) =>
      n' == n && (out == {} || (n.lead != NONE && out == {Prop(n.id, n.lead, entries)}))
    case _ => n' == n && out == {}
  }

  /** Raft::step, MsgHup; a committed but unapplied configuration change makes the node wait. */
  ghost predicate StepHup(cfg: Config, n: Node, n': Node, out: set<Message>)
    requires cfg.Valid() && n.id in cfg.voters
  {
    if n.role.Leader? then n' == n && out == {}
    else
      || (n' == n && out == {} && exists e :: e in n.log && e.kind.ConfChange?)
      || (n', out) == if n.id in cfg.preVote then PreCampaign(cfg.voters, n) else Campaign(cfg.voters, n, false)
  }

  /** A leader is heard from: votes of a later term are ignored unless they force a transfer. */
  predicate InLease(cfg: Config, n: Node, m: Message) {
    && (m.Vote? || m.PreVote?) && m.term > n.term
    && cfg.checkQuorum && n.lead != NONE && !(m.Vote? && m.force)
  }

  ghost predicate Dispatch(cfg: Config, n: Node, m: Message, n': Node, out: set<Message>)
    requires cfg.Valid() && n.id in cfg.voters
  {
    if m.Hup? then StepHup(cfg, n, n', out)
    else if m.Vote? || m.PreVote? then (n', out) == HandleVote(n, m)
    else match n.role
      case Leader => StepLeader(cfg, n, m, n', out)
      case Follower => StepFollower(cfg, n, m, n', out)
      case _ => StepCandidate(cfg, n, m, n', out)
  }

  /** Raft::step, once the lease has let m through. */
  ghost predicate Proceeds(cfg: Config, n: Node, m: Message, n': Node, out: set<Message>)
    requires cfg.Valid() && n.id in cfg.voters
  {
    if m.TermField() != 0 && m.TermField() < n.term then n' == n && out == StaleReply(cfg, n, m)
    else Dispatch(cfg, CatchUp(n, m), m, n', out)
  }

  /** Raft::step. The lease check depends on elapsed ticks, so either outcome is possible. */
  ghost predicate Step(cfg: Config, n: Node, m: Message, n': Node, out: set<Message>)
    requires cfg.Valid() && n.id in cfg.voters
  {
    (InLease(cfg, n, m) && n' == n && out == {}) || Proceeds(cfg, n, m, n', out)
  }

  /** Whether stepping m would make the node throw out of its log. */
  predicate Fatal(cfg: Config, n: Node, m: Message) {
    && (m.App? || m.Heartbeat? || m.Snap?)
    && m.term >= n.term
    && !CatchUp(n, m).role.Leader?
    && LogFatal(CatchUp(n, m), m)
  }
}
