/**
 * The protocol's atomic effects. An event of the cluster is a short chain of them; invariants are
 * proved per action and carried to events by Refinement.DeliverRefines.
 */
module Actions {
  import opened Proto
  import opened NodeSpec
  import opened Cluster
  import Quorum

  datatype Action =
    | StepDown(i: Id, term: Term, lead: Id)
    | Follow(i: Id, lead: Id)
    | Emit(i: Id, out: set<Message>)
    | Grant(i: Id, m: Message)
    | Stand(i: Id, force: bool)
    | PreStand(i: Id)
    | Tally(i: Id, m: Message)
    | Win(i: Id)
    | LeadAppend(i: Id, entries: seq<Entry>)
    | LeadCommit(i: Id, k: nat)
    | LeadMatch(i: Id, m: Message)
    | Accept(i: Id, m: Message)
    | AckCommitted(i: Id, m: Message)
    | TurnDown(i: Id, m: Message)
    | Advance(i: Id, m: Message)
    | Install(i: Id, m: Message)
    | Recover(i: Id, commit: nat)

  /** Messages whose sending needs no history beyond the sender's current state. */
  ghost predicate MayEmit(cfg: Config, n: Node, m: Message) {
    || (n.role.Leader? && (LeaderMay(cfg.voters, n, m) || m in Heartbeats(cfg.voters, n)))
    || m.Prop?
    || (m.HeartbeatResp? && m.term == n.term)
    || (m.AppResp? && m.from == n.id && m.term == n.term && !m.reject && m.index == 0)
    || (m.VoteResp? && m.from == n.id && m.term == n.term && m.reject)
    || (m.PreVoteResp? && m.from == n.id && m.term >= 1 && (m.reject || m.to in cfg.preVote))
  }

  /** The message that an action consumes, if any. */
  function Consumed(a: Action): set<Message> {
    if a.Grant? || a.Tally? || a.LeadMatch? || a.Accept? || a.AckCommitted? || a.TurnDown? || a.Advance? || a.Install? then {a.m}
    else {}
  }

  /** What the node's own state demands of an action. */
  ghost predicate Guard(cfg: Config, n: Node, a: Action)
  {
    match a
    case StepDown(_, term, _) => term >= n.term
    case Follow(_, _) => n.role.Follower?
    case Emit(_, out) => forall m | m in out :: MayEmit(cfg, n, m)
    case Grant(_, m) =>
      && m.Vote? && m.to == n.id && m.term == n.term
      && (n.vote == NONE || n.vote == m.from) && UpToDate(n.log, m.index, m.logTerm)
    case Stand(_, _) => !n.role.Leader?
    case PreStand(_) => !n.role.Leader? && n.id in cfg.preVote
    case Tally(_, m) =>
      && (n.role.Candidate? || n.role.PreCandidate?)
      && (|| (m.VoteResp? && m.to == n.id && m.term == n.term)
          || (m.PreVoteResp? && m.to == n.id && (!cfg.guarded || n.role.PreCandidate?)))
    case Win(_) => n.role.Candidate? && Quorum.Size(cfg.voters) == |n.granted|
    case LeadAppend(_, _) => n.role.Leader?
    case LeadCommit(_, k) =>
      n.role.Leader? && k > n.commit && TermAt(n.log, k) == n.term && Quorum.Backed(cfg.voters, n.matched, k)
    case LeadMatch(_, m) =>
      && n.role.Leader? && m.AppResp? && m.to == n.id && m.term == n.term && !m.reject
      && m.from in cfg.voters && m.index > Quorum.Known(n.matched, m.from)
    case Accept(_, m) =>
      n.role.Follower? && m.App? && m.to == n.id && m.term == n.term && Accepts(n, m) && !LogFatal(n, m)
    case AckCommitted(_, m) =>
      n.role.Follower? && m.App? && m.to == n.id && m.term == n.term && m.index < n.commit
    case TurnDown(_, m) =>
      n.role.Follower? && m.App? && m.to == n.id && m.term == n.term && m.index >= n.commit && !Accepts(n, m)
    case Advance(_, m) =>
      n.role.Follower? && m.Heartbeat? && m.to == n.id && m.term == n.term && !LogFatal(n, m)
    case Install(_, m) =>
      n.role.Follower? && m.Snap? && m.to == n.id && m.term == n.term && !LogFatal(n, m)
    case Recover(_, commit) => commit <= n.commit
  }

  ghost predicate Enabled(cfg: Config, c: State, a: Action)
    requires WellFormed(cfg, c)
  {
    a.i in cfg.voters && Guard(cfg, c.nodes[a.i], a) && Consumed(a) <= c.net
  }

  /** Node i moves to n and sends out. */
  function Put(c: State, i: Id, n: Node, out: set<Message>): State {
    State(c.nodes[i := n], c.net + out)
  }

  /** The leader's node right after an election, before it looks for something to commit. */
  function Crowned(n: Node): Node {
    var log := n.log + Stamp(n.term, |n.log|, [NOOP]);
    Reset(n, n.term).(lead := n.id, role := Leader, log := log, matched := map[n.id := |log|])
  }

  function Lengthened(n: Node, entries: seq<Entry>): Node {
    var log := n.log + Stamp(n.term, |n.log|, entries);
    n.(log := log, matched := n.matched[n.id := Max(Quorum.Known(n.matched, n.id), |log|)])
  }

  ghost function NewNode(cfg: Config, n: Node, a: Action): Node
    requires Guard(cfg, n, a)
  {
    match a
    case StepDown(_, term, lead) => BecomeFollower(n, term, lead)
    case Follow(_, lead) => n.(lead := lead)
    case Emit(_, out) => n
    case Grant(_, m) => n.(vote := m.from)
    case Stand(_, force) => BecomeCandidate(n).(granted := {n.id})
    case PreStand(_) => BecomePreCandidate(n).(granted := {n.id})
    case Tally(_, m) => Poll(n, m.from, !m.reject)
    case Win(_) => Crowned(n)
    case LeadAppend(_, entries) => Lengthened(n, entries)
    case LeadCommit(_, k) => n.(commit := k)
    case LeadMatch(_, m) => n.(matched := n.matched[m.from := m.index])
    case Accept(_, m) => Accepted(n, m)
    case AckCommitted(_, m) => n
    case TurnDown(_, m) => n
    case Advance(_, m) => HandleHeartbeat(n, m).0
    case Install(_, m) => HandleSnapshot(n, m).0
    case Recover(_, commit) => Restarted(n, commit)
  }

  ghost function NewMessages(cfg: Config, n: Node, a: Action): set<Message>
    requires Guard(cfg, n, a)
  {
    match a
    case Emit(_, out) => out
    case Grant(_, m) => {VoteResp(n.id, m.from, m.term, false)}
    case Stand(_, force) => VoteRequests(cfg.voters, NewNode(cfg, n, a), force)
    case PreStand(_) => PreVoteRequests(cfg.voters, n)
    case Accept(_, m) => {Ack(n, m.from, m.index + |m.entries|)}
    case AckCommitted(_, m) => {Ack(n, m.from, n.commit)}
    case TurnDown(_, m) => {AppResp(n.id, m.from, n.term, m.index, true, |n.log|)}
    case Advance(_, m) => {HeartbeatResp(n.id, m.from, n.term)}
    case Install(_, m) => {Ack(n, m.from, 0)}
    case _ => {}
  }

  ghost function Effect(cfg: Config, c: State, a: Action): State
    requires WellFormed(cfg, c) && Enabled(cfg, c, a)
  {
    var n := c.nodes[a.i];
    Put(c, a.i, NewNode(cfg, n, a), NewMessages(cfg, n, a))
  }

  lemma NewNodeKeepsShape(cfg: Config, n: Node, a: Action)
    requires Guard(cfg, n, a)
    ensures NewNode(cfg, n, a).id == n.id
  {
  }

  lemma ReplaceWellFormed(cfg: Config, c: State, i: Id, n: Node, out: set<Message>)
    requires WellFormed(cfg, c) && n.id == i
    ensures WellFormed(cfg, Put(c, i, n, out))
  {
  }

  /** Action a leads from c to c'. */
  ghost predicate Moves(cfg: Config, c: State, a: Action, c': State) {
    WellFormed(cfg, c) && Enabled(cfg, c, a) && c' == Effect(cfg, c, a)
  }

  /** Actions performed one after the other, with the states in between. */
  datatype Path = Path(states: seq<State>, acts: seq<Action>)

  /** Node i goes from c to c' by actions of its own, none of them a restart, on messages that were in flight. */
  ghost predicate Leads(cfg: Config, c: State, i: Id, p: Path, c': State) {
    && |p.states| == |p.acts| + 1
    && p.states[0] == c && p.states[|p.acts|] == c'
    && (forall k {:trigger p.acts[k]} | 0 <= k < |p.acts| ::
          Moves(cfg, p.states[k], p.acts[k], p.states[k + 1]) && Own(c, i, p.acts[k]))
  }

  predicate Own(c: State, i: Id, a: Action) {
    a.i == i && !a.Recover? && Consumed(a) <= c.net
  }
}
