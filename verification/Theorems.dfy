/**
 * What the protocol guarantees, over whole runs: election safety, log matching, leader
 * completeness, state machine safety, sound acknowledgements, and that no delivered message can
 * make a node throw out of its log.
 */
module Theorems {
  import opened Proto
  import opened NodeSpec
  import opened Cluster
  import opened Election
  import opened History
  import opened Completeness
  import opened Preservation
  import opened Runs
  import LogMatching

  /** State k of the run has node i as leader of the given term. */
  ghost predicate Leads(cfg: Config, run: seq<State>, k: nat, i: Id, term: Term) {
    && k < |run| && i in cfg.voters && i in run[k].nodes
    && run[k].nodes[i].role.Leader? && run[k].nodes[i].term == term
  }

  // ---------------------------------------------------------------- election safety

  lemma LeaderHasWon(cfg: Config, c: State, b: Ballots, b': Ballots, i: Id)
    requires Election.Inv(cfg, c, b) && i in cfg.voters && c.nodes[i].role.Leader?
    requires Extends(b, b')
    ensures Won(cfg, b', c.nodes[i].term, i)
  {
    assert NodeOk(cfg, b, c.nodes[i]);
    WonStays(cfg, b, b', c.nodes[i].term, i);
  }

  /** At most one node is ever leader in a term, across crashes and restarts. */
  lemma ElectionSafety(cfg: Config, boot: seq<Entry>, run: seq<State>, k: nat, l: nat, i: Id, j: Id, term: Term)
    requires IsRun(cfg, boot, run) && !Exposed(cfg) && k <= l
    requires Leads(cfg, run, k, i, term) && Leads(cfg, run, l, j, term)
    ensures i == j
  {
    var b, b' := VotesAt(cfg, boot, run, k, l);
    LeaderHasWon(cfg, run[k], b, b', i);
    LeaderHasWon(cfg, run[l], b', b', j);
    OneWinner(cfg, b', term, i, j);
  }

  // ---------------------------------------------------------------- logs

  /** If two logs, at any two moments, hold the same term at an index, they are equal through it. */
  lemma LogMatchingHolds(cfg: Config, boot: seq<Entry>, run: seq<State>, k: nat, l: nat, i: Id, j: Id, index: nat)
    requires IsRun(cfg, boot, run) && !Exposed(cfg) && k <= l < |run| && i in cfg.voters && j in cfg.voters
    requires var a, b := run[k].nodes[i].log, run[l].nodes[j].log;
             index <= |a| && index <= |b| && TermAt(a, index) == TermAt(b, index)
    ensures Agree(run[k].nodes[i].log, run[l].nodes[j].log, index)
  {
    var h, h' := HistoryAt(cfg, boot, run, k, l);
    var n, n' := run[k].nodes[i], run[l].nodes[j];
    assert NodeLogOk(cfg, h, n) && NodeLogOk(cfg, h', n');
    RootedGrows(h.reigns, h'.reigns, n.log, n.term);
    LogMatching.Matching(h'.reigns, n.log, n.term, n'.log, n'.term, index);
  }

  /** What the record keeps of a node, however old that state of the node is. */
  ghost predicate Recorded(voters: set<Id>, h: Past, n: Node) {
    && CommitOk(voters, h, n.term, n.log, n.commit)
    && (n.role.Leader? ==>
          && n.term in h.reigns && Agree(n.log, h.reigns[n.term].log, |n.log|)
          && LastTerm(n.log) == n.term)
  }

  lemma StaysRecorded(cfg: Config, boot: seq<Entry>, run: seq<State>, k: nat, top: nat, i: Id, h: Past, h': Past)
    requires k <= top < |run| && i in cfg.voters && History.Inv(cfg, run[k], h) && Grows(h, h')
    ensures Recorded(cfg.voters, h', run[k].nodes[i])
  {
    var n := run[k].nodes[i];
    assert NodeLogOk(cfg, h, n);
    CommitOkGrows(cfg.voters, h, h', n.term, n.term, n.log, n.commit);
  }

  /** One record for two nodes at any two moments. */
  lemma CommonPast(cfg: Config, boot: seq<Entry>, run: seq<State>, k: nat, l: nat, i: Id, j: Id) returns (h: Past)
    requires IsRun(cfg, boot, run) && !Exposed(cfg) && k < |run| && l < |run| && i in cfg.voters && j in cfg.voters
    ensures Complete(cfg, run[Max(k, l)], h) && (forall t | t in h.reigns :: ReignOk(cfg, h, t))
    ensures Recorded(cfg.voters, h, run[k].nodes[i]) && Recorded(cfg.voters, h, run[l].nodes[j])
  {
    var lo, hi := Min(k, l), Max(k, l);
    var h0, h1 := HistoryAt(cfg, boot, run, lo, hi);
    h := h1;
    GrowsReflexive(h1);
    if k <= l {
      StaysRecorded(cfg, boot, run, k, hi, i, h0, h1);
      StaysRecorded(cfg, boot, run, l, hi, j, h1, h1);
    } else {
      StaysRecorded(cfg, boot, run, k, hi, i, h1, h1);
      StaysRecorded(cfg, boot, run, l, hi, j, h0, h1);
    }
  }

  lemma LeaderHoldsCommitted(cfg: Config, c: State, h: Past, n: Node, w: Node)
    requires Complete(cfg, c, h) && (forall t | t in h.reigns :: ReignOk(cfg, h, t))
    requires Recorded(cfg.voters, h, n) && Recorded(cfg.voters, h, w) && w.role.Leader? && n.term < w.term
    ensures Agree(n.log, w.log, n.commit)
  {
    var u, l := CommitWitness(cfg.voters, h, n.term, n.log, n.commit);
    CommittedInLaterReigns(cfg, c, h, u, l, w.term);
    assert ReignOk(cfg, h, u);
    assert h.reigns[w.term].log[|w.log| - 1].term == w.term;
  }

  /**
   * What a node has committed by its term t is in the log of every leader of a later term, no
   * matter which of the two states comes first.
   */
  lemma LeaderCompleteness(cfg: Config, boot: seq<Entry>, run: seq<State>, k: nat, l: nat, i: Id, j: Id, u: Term)
    requires IsRun(cfg, boot, run) && !Exposed(cfg) && k < |run| && i in cfg.voters
    requires Leads(cfg, run, l, j, u) && run[k].nodes[i].term < u
    ensures Agree(run[k].nodes[i].log, run[l].nodes[j].log, run[k].nodes[i].commit)
  {
    var h := CommonPast(cfg, boot, run, k, l, i, j);
    LeaderHoldsCommitted(cfg, run[Max(k, l)], h, run[k].nodes[i], run[l].nodes[j]);
  }

  /** Any two nodes, at any two moments, hold the same entries up to the smaller commit index. */
  lemma StateMachineSafety(cfg: Config, boot: seq<Entry>, run: seq<State>, k: nat, l: nat, i: Id, j: Id)
    requires IsRun(cfg, boot, run) && !Exposed(cfg) && k < |run| && l < |run| && i in cfg.voters && j in cfg.voters
    ensures var a, b := run[k].nodes[i], run[l].nodes[j];
            Agree(a.log, b.log, Min(a.commit, b.commit))
  {
    var h := CommonPast(cfg, boot, run, k, l, i, j);
    var a, b := run[k].nodes[i], run[l].nodes[j];
    CommitsAgree(cfg, run[Max(k, l)], h, a.term, a.log, a.commit, b.term, b.log, b.commit);
  }

  /** A snapshot in flight contradicts nothing that any node has committed. */
  lemma SnapshotAgrees(cfg: Config, boot: seq<Entry>, run: seq<State>, k: nat, i: Id, m: Message)
    requires IsRun(cfg, boot, run) && !Exposed(cfg) && k < |run| && i in cfg.voters
    requires m in run[k].net && m.Snap?
    ensures Agree(m.prefix, run[k].nodes[i].log, Min(m.index, run[k].nodes[i].commit))
  {
    var h, _ := HistoryAt(cfg, boot, run, k, k);
    var n := run[k].nodes[i];
    assert Complete(cfg, run[k], h) && NodeLogOk(cfg, h, n) && MsgLogOk(cfg, h, m);
    hide *;
    SnapshotHolds(cfg, run[k], h, n, m);
  }

  lemma SnapshotHolds(cfg: Config, c: State, h: Past, n: Node, m: Message)
    requires Complete(cfg, c, h) && NodeLogOk(cfg, h, n) && m.Snap? && MsgLogOk(cfg, h, m)
    ensures Agree(m.prefix, n.log, Min(m.index, n.commit))
  {
    hide Complete;
    CommitsAgree(cfg, c, h, m.term, h.reigns[m.term].log, m.index, n.term, n.log, n.commit);
  }

  lemma AppendKeepsCommit(voters: set<Id>, n: Node, entries: seq<Entry>)
    requires n.id in voters
    ensures n.commit <= AppendEntry(voters, n, entries).commit
  {
  }

  lemma CampaignKeepsCommit(voters: set<Id>, n: Node, force: bool)
    requires n.id in voters
    ensures n.commit <= Campaign(voters, n, force).0.commit
    ensures n.commit <= PreCampaign(voters, n).0.commit
  {
    forall p: Node | p.id in voters ensures p.commit <= BecomeLeader(voters, p).commit {
      AppendKeepsCommit(voters, Reset(p, p.term).(lead := p.id, role := Leader), [NOOP]);
    }
  }

  lemma CountKeepsCommit(cfg: Config, n: Node, from: Id, v: bool, n': Node, out: set<Message>)
    requires cfg.Valid() && n.id in cfg.voters && CountVote(cfg, n, from, v, n', out)
    ensures n.commit <= n'.commit
  {
    var p := Poll(n, from, v);
    CampaignKeepsCommit(cfg.voters, p, false);
    AppendKeepsCommit(cfg.voters, Reset(p, p.term).(lead := p.id, role := Leader), [NOOP]);
  }

  lemma LeaderKeepsCommit(cfg: Config, n: Node, m: Message, n': Node, out: set<Message>)
    requires cfg.Valid() && n.id in cfg.voters && StepLeader(cfg, n, m, n', out)
    ensures n.commit <= n'.commit
  {
  }

  lemma DispatchKeepsCommit(cfg: Config, n: Node, m: Message, n': Node, out: set<Message>)
    requires cfg.Valid() && n.id in cfg.voters && Dispatch(cfg, n, m, n', out)
    ensures n.commit <= n'.commit
  {
    if m.Hup? || m.TimeoutNow? {
      CampaignKeepsCommit(cfg.voters, n, m.TimeoutNow?);
    } else if n.role.Leader? && !m.Vote? && !m.PreVote? {
      LeaderKeepsCommit(cfg, n, m, n', out);
    } else if (m.VoteResp? || m.PreVoteResp?) && n' != n {
      CountKeepsCommit(cfg, n, m.from, !m.reject, n', out);
    }
  }

  /** Between restarts a node's commit index never goes down. */
  lemma CommitNeverDecreases(cfg: Config, c: State, e: Event, c': State, i: Id)
    requires WellFormed(cfg, c) && Happens(cfg, c, e, c') && i in cfg.voters
    ensures e == Restart(i, c'.nodes[i].commit) || c.nodes[i].commit <= c'.nodes[i].commit
  {
    if e.Deliver? && e.i == i {
      var n := c.nodes[i];
      if !(e.m.TermField() != 0 && e.m.TermField() < n.term) && c'.nodes[i] != n {
        DispatchKeepsCommit(cfg, CatchUp(n, e.m), e.m, c'.nodes[i], e.out);
      }
    }
  }

  // ---------------------------------------------------------------- acknowledgements and fatal errors

  /** An acknowledgement of index n means what it says for the rest of its term. */
  lemma AckSoundness(cfg: Config, boot: seq<Entry>, run: seq<State>, k: nat, l: nat, m: Message, i: Id)
    requires IsRun(cfg, boot, run) && !Exposed(cfg) && k <= l < |run|
    requires m in run[k].net && m.AppResp? && !m.reject
    requires Leads(cfg, run, l, i, m.term)
    ensures m.from in cfg.voters && m.from in run[l].nodes
    ensures run[l].nodes[m.from].term == m.term ==>
              Agree(run[l].nodes[i].log, run[l].nodes[m.from].log, m.index)
  {
    var h, h' := HistoryAt(cfg, boot, run, k, l);
    assert MsgOk(cfg, h.ballots, m) && MsgLogOk(cfg, h, m) && NodeLogOk(cfg, h', run[l].nodes[i]);
    hide History.Inv, NodeLogOk, MsgLogOk, Grows;
    AckedIsHeld(cfg, run[l], h, h', m, i);
  }

  lemma AckedIsHeld(cfg: Config, c: State, h: Past, h': Past, m: Message, i: Id)
    requires MsgLogOk(cfg, h, m) && m.AppResp? && !m.reject && Grows(h, h')
    requires PastOk(cfg, c, h') && i in c.nodes && NodeLogOk(cfg, h', c.nodes[i]) && m.from in c.nodes
    requires c.nodes[i].role.Leader? && c.nodes[i].term == m.term
    ensures c.nodes[m.from].term == m.term ==> Agree(c.nodes[i].log, c.nodes[m.from].log, m.index)
  {
    AckedGrows(h, h', m.from, m.term);
    if Slot(m.from, m.term) in h'.acked {
      assert AckOk(cfg, c, h', Slot(m.from, m.term));
    }
  }

  lemma CaughtUpOk(cfg: Config, h: Past, n: Node, m: Message)
    requires NodeLogOk(cfg, h, n) && (m.App? || m.Heartbeat? || m.Snap?) && m.term >= n.term
    ensures NodeLogOk(cfg, h, CatchUp(n, m)) && CatchUp(n, m).term == m.term
    ensures CatchUp(n, m).log == n.log && CatchUp(n, m).commit == n.commit
  {
    if m.term > n.term {
      GrowsReflexive(h);
      QuietNode(cfg, h, n, h, CatchUp(n, m));
    }
  }

  lemma HeartbeatInRange(cfg: Config, c: State, h: Past, n: Node, m: Message)
    requires PastOk(cfg, c, h) && n.id in c.nodes && c.nodes[n.id] == n
    requires m.Heartbeat? && m.to == n.id && m.term >= n.term && MsgLogOk(cfg, h, m)
    ensures m.commit <= |n.log|
  {
    if Slot(n.id, m.term) in h.acked {
      assert AckOk(cfg, c, h, Slot(n.id, m.term));
    }
  }

  lemma NotFatal(cfg: Config, c: State, h: Past, n: Node, m: Message)
    requires PastOk(cfg, c, h) && Complete(cfg, c, h) && NodeLogOk(cfg, h, n) && n.id in c.nodes && c.nodes[n.id] == n
    requires (m.App? || m.Heartbeat? || m.Snap?) && m.to == n.id && m.term >= n.term && MsgLogOk(cfg, h, m)
    ensures !LogFatal(CatchUp(n, m), m)
  {
    var n1 := CatchUp(n, m);
    CaughtUpOk(cfg, h, n, m);
    if m.App? && Accepts(n1, m) {
      AcceptFollows(cfg, c, h, n1, m);
    } else if m.Heartbeat? {
      HeartbeatInRange(cfg, c, h, n, m);
    } else if m.Snap? {
      InstallFollows(cfg, c, h, n1, m);
    }
  }

  /** No message in flight, delivered now, reaches a LOG_FATAL of the log. */
  lemma NoFatal(cfg: Config, boot: seq<Entry>, run: seq<State>, k: nat, i: Id, m: Message)
    requires IsRun(cfg, boot, run) && !Exposed(cfg) && k < |run| && i in cfg.voters
    requires m in run[k].net && !m.Local() && m.to == i
    ensures !Fatal(cfg, run[k].nodes[i], m)
  {
    var n := run[k].nodes[i];
    var h, h' := HistoryAt(cfg, boot, run, k, k);
    if (m.App? || m.Heartbeat? || m.Snap?) && m.term >= n.term {
      assert NodeLogOk(cfg, h, n) && MsgLogOk(cfg, h, m);
      NotFatal(cfg, run[k], h, n, m);
    }
  }
}
