/**
 * What a run leaves behind, and the invariant that ties the nodes and the network to it. For each
 * term the history holds its leader's log, which only grows; for each node and term it holds the
 * vote cast, the log a candidate stood with, and how far the node has acknowledged that log.
 */
module History {
  import opened Proto
  import opened NodeSpec
  import opened Cluster
  import opened Election
  import Quorum

  datatype Reign = Reign(leader: Id, log: seq<Entry>)

  datatype Past = Past(
    ballots: Ballots, cands: map<Slot, seq<Entry>>, reigns: map<Term, Reign>, acked: map<Slot, nat>)

  // ---------------------------------------------------------------- logs against reigns

  /** a and b are the same through index k. */
  ghost predicate Agree(a: seq<Entry>, b: seq<Entry>, k: nat) {
    k <= |a| && k <= |b| && forall i | 0 <= i < k :: a[i] == b[i]
  }

  /**
   * Every entry of log sits where its term's leader put it, below it the leader's log of that
   * term. Two logs that share an entry's index and term are therefore equal through it.
   */
  ghost predicate Rooted(reigns: map<Term, Reign>, log: seq<Entry>, t: Term) {
    forall i | 0 <= i < |log| ::
      && log[i].index == i + 1
      && 1 <= log[i].term <= t
      && log[i].term in reigns
      && Agree(log, reigns[log[i].term].log, i + 1)
  }

  function Acked(h: Past, j: Id, t: Term): nat {
    if Slot(j, t) in h.acked then h.acked[Slot(j, t)] else 0
  }

  /** Index k of the log holds an entry of term t. */
  ghost predicate Pivot(log: seq<Entry>, t: Term, k: nat) {
    1 <= k <= |log| && log[k - 1].term == t
  }

  function Ackers(voters: set<Id>, h: Past, t: Term, k: nat): set<Id> {
    set j | j in voters && Acked(h, j, t) >= k
  }

  /** Index k is committed in term t: an entry of that term there, or nothing at all, acknowledged by a majority. */
  ghost predicate Committed(voters: set<Id>, h: Past, t: Term, k: nat) {
    && t in h.reigns && k <= |h.reigns[t].log|
    && (k == 0 || Pivot(h.reigns[t].log, t, k))
    && Quorum.IsQuorum(voters, Ackers(voters, h, t, k))
  }

  /** The first k entries of log were committed in some term up to t. */
  ghost predicate CommitOk(voters: set<Id>, h: Past, t: Term, log: seq<Entry>, k: nat) {
    && k <= |log|
    && exists u: Term, l: nat :: u <= t && k <= l && Committed(voters, h, u, l) && Agree(log, h.reigns[u].log, k)
  }

  /** Voters that have left term t without acknowledging index k, and so never will. */
  function Blockers(voters: set<Id>, c: State, h: Past, t: Term, k: nat): set<Id> {
    set j | j in voters && j in c.nodes && c.nodes[j].term > t && Acked(h, j, t) < k
  }

  /** The rest of the voters is no majority. */
  ghost predicate Blocked(voters: set<Id>, c: State, h: Past, t: Term, k: nat) {
    Quorum.Blocks(voters, Blockers(voters, c, h, t, k))
  }

  /** log contains the first k entries of term t's leader, unless they can no longer commit in t. */
  ghost predicate Survives(voters: set<Id>, c: State, h: Past, t: Term, k: nat, log: seq<Entry>) {
    t in h.reigns && (Agree(h.reigns[t].log, log, k) || Blocked(voters, c, h, t, k))
  }

  // ---------------------------------------------------------------- the invariant

  ghost predicate ReignOk(cfg: Config, h: Past, t: Term)
    requires t in h.reigns
  {
    && t >= 1
    && Rooted(h.reigns, h.reigns[t].log, t)
    && (t != BOOT_TERM ==>
          h.reigns[t].leader in cfg.voters && Won(cfg, h.ballots, t, h.reigns[t].leader))
  }

  ghost predicate BallotHistoryOk(cfg: Config, h: Past, s: Slot)
    requires s in h.ballots
  {
    var b := h.ballots[s];
    && s.node in cfg.voters && s.term > BOOT_TERM
    && Rooted(h.reigns, b.log, s.term - 1)
    && Slot(b.cand, s.term) in h.cands
    && var w := h.cands[Slot(b.cand, s.term)];
       UpToDate(b.log, |w|, LastTerm(w))
  }

  ghost predicate CandOk(h: Past, s: Slot)
    requires s in h.cands
  {
    s.term > BOOT_TERM && Rooted(h.reigns, h.cands[s], s.term - 1)
  }

  ghost predicate AckOk(cfg: Config, c: State, h: Past, s: Slot)
    requires s in h.acked
  {
    && s.node in cfg.voters && s.node in c.nodes
    && s.term in h.reigns && h.acked[s] <= |h.reigns[s.term].log|
    && s.term <= c.nodes[s.node].term
    && (s.term == c.nodes[s.node].term ==> Agree(h.reigns[s.term].log, c.nodes[s.node].log, h.acked[s]))
  }

  ghost predicate PastOk(cfg: Config, c: State, h: Past) {
    && (forall t | t in h.reigns :: ReignOk(cfg, h, t))
    && (forall s | s in h.ballots :: BallotHistoryOk(cfg, h, s))
    && (forall s | s in h.cands :: CandOk(h, s))
    && (forall s | s in h.acked :: AckOk(cfg, c, h, s))
  }

  ghost predicate LeaderOk(cfg: Config, h: Past, n: Node) {
    && n.term in h.reigns && n.term != BOOT_TERM && h.reigns[n.term] == Reign(n.id, n.log)
    && (forall j | j in cfg.voters :: Quorum.Known(n.matched, j) <= Acked(h, j, n.term))
    && Acked(h, n.id, n.term) == |n.log|
    && LastTerm(n.log) == n.term
  }

  ghost predicate NodeLogOk(cfg: Config, h: Past, n: Node) {
    && n.term >= 1
    && Rooted(h.reigns, n.log, n.term)
    && CommitOk(cfg.voters, h, n.term, n.log, n.commit)
    && (forall s | s in h.cands && s.node == n.id :: s.term <= n.term)
    && (n.role.Candidate? ==> Slot(n.id, n.term) in h.cands && h.cands[Slot(n.id, n.term)] == n.log)
    && (n.role.Candidate? && n.term in h.reigns ==> h.reigns[n.term].leader != n.id)
    && (n.role.Leader? ==> LeaderOk(cfg, h, n))
  }

  /** A message tells the truth about its term's leader, for good. */
  ghost predicate MsgLogOk(cfg: Config, h: Past, m: Message) {
    match m
    case App(_, _, term, index, logTerm, entries, commit) =>
      && term in h.reigns
      && var log := h.reigns[term].log;
         && index + |entries| <= |log|
         && logTerm == TermAt(log, index)
         && (forall i | 0 <= i < |entries| :: entries[i] == log[index + i])
         && CommitOk(cfg.voters, h, term, log, commit)
    case Heartbeat(_, to, term, commit) =>
      && term in h.reigns
      && commit <= Acked(h, to, term)
      && CommitOk(cfg.voters, h, term, h.reigns[term].log, commit)
    case Snap(_, _, term, index, logTerm, prefix) =>
      && term in h.reigns
      && var log := h.reigns[term].log;
         && 1 <= index <= |log| && |prefix| == index
         && logTerm == TermAt(log, index)
         && Agree(prefix, log, index)
         && CommitOk(cfg.voters, h, term, log, index)
    case AppResp(from, _, term, index, reject, _) => reject || index <= Acked(h, from, term)
    case Vote(from, _, term, index, logTerm, _) =>
      Slot(from, term) in h.cands
      && index == |h.cands[Slot(from, term)]| && logTerm == LastTerm(h.cands[Slot(from, term)])
    case _ => true
  }

  /** Later leaders hold what earlier terms may have committed. */
  ghost predicate Complete(cfg: Config, c: State, h: Past) {
    forall t, u, k: nat {:trigger Survives(cfg.voters, c, h, t, k, h.reigns[u].log)} |
      t in h.reigns && u in h.reigns && t < u && Pivot(h.reigns[t].log, t, k) ::
      Survives(cfg.voters, c, h, t, k, h.reigns[u].log)
  }

  /** A node keeps what it has acknowledged. */
  ghost predicate AcksKept(cfg: Config, c: State, h: Past) {
    forall j, t, k: nat {:trigger Survives(cfg.voters, c, h, t, k, c.nodes[j].log)} |
      j in cfg.voters && j in c.nodes && t in h.reigns && Pivot(h.reigns[t].log, t, k) && k <= Acked(h, j, t) ::
      Survives(cfg.voters, c, h, t, k, c.nodes[j].log)
  }

  /** A vote was cast with everything acknowledged before it. */
  ghost predicate VotesKept(cfg: Config, c: State, h: Past) {
    forall s, t, k: nat {:trigger Survives(cfg.voters, c, h, t, k, h.ballots[s].log)} |
      s in h.ballots && t in h.reigns && t < s.term && Pivot(h.reigns[t].log, t, k) && k <= Acked(h, s.node, t) ::
      Survives(cfg.voters, c, h, t, k, h.ballots[s].log)
  }

  ghost predicate Inv(cfg: Config, c: State, h: Past) {
    && !Exposed(cfg)
    && Election.Inv(cfg, c, h.ballots)
    && PastOk(cfg, c, h)
    && (forall i | i in cfg.voters :: NodeLogOk(cfg, h, c.nodes[i]))
    && (forall m | m in c.net :: MsgLogOk(cfg, h, m))
    && Complete(cfg, c, h) && AcksKept(cfg, c, h) && VotesKept(cfg, c, h)
  }
}
