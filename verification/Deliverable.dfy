/**
 * Where the raft object meets the cluster. Whatever message a run delivers, the object may step
 * it: nothing the object asks of a message is more than what the protocol guarantees. And a step
 * of the object is an event of the cluster.
 */
module Deliverable {
  import opened Proto
  import opened NodeSpec
  import opened Cluster
  import opened History
  import opened Runs
  import Election
  import Journal
  import LogSpec
  import NodeAction
  import RaftCore
  import Theorems

  // ---------------------------------------------------------------- no node writes to itself

  ghost predicate Travels(m: Message) {
    !m.Local() && (m.Prop? || m.from != m.to)
  }

  lemma HandlingTravels(n: Node, m: Message)
    requires (m.App? || m.Heartbeat? || m.Snap?) && m.from != n.id
    ensures forall x | x in HandleFromLeader(n, m).1 :: Travels(x)
  {
    hide Merge, TermAt;
  }

  lemma CampaignTravels(voters: set<Id>, n: Node, force: bool)
    requires n.id in voters
    ensures forall x | x in Campaign(voters, n, force).1 :: Travels(x)
    ensures forall x | x in PreCampaign(voters, n).1 :: Travels(x)
  {
    hide BecomeLeader, LastTerm;
  }

  lemma LeaderTravels(cfg: Config, n: Node, m: Message, n': Node, out: set<Message>)
    requires cfg.Valid() && n.id in cfg.voters && StepLeader(cfg, n, m, n', out)
    ensures forall x | x in out :: Travels(x)
  {
    hide AppendEntry, MaybeCommit, TermAt;
  }

  lemma CountTravels(cfg: Config, n: Node, from: Id, v: bool, n': Node, out: set<Message>)
    requires cfg.Valid() && n.id in cfg.voters && CountVote(cfg, n, from, v, n', out)
    ensures forall x | x in out :: Travels(x)
  {
    hide Campaign, BecomeLeader, TermAt;
    CampaignTravels(cfg.voters, Poll(n, from, v), false);
  }

  lemma DispatchTravels(cfg: Config, n: Node, m: Message, n': Node, out: set<Message>)
    requires cfg.Valid() && n.id in cfg.voters && Dispatch(cfg, n, m, n', out)
    requires m.Local() || m.Prop? || m.from != n.id
    ensures forall x | x in out :: Travels(x)
  {
    hide Campaign, PreCampaign, HandleFromLeader, StepLeader, CountVote, UpToDate, TermAt;
    if n.role.Leader? && !m.Hup? && !m.Vote? && !m.PreVote? {
      LeaderTravels(cfg, n, m, n', out);
    } else if m.Hup? || m.TimeoutNow? {
      CampaignTravels(cfg.voters, n, true);
      CampaignTravels(cfg.voters, n, false);
    } else if m.App? || m.Heartbeat? || m.Snap? {
      HandlingTravels(n.(lead := m.from), m);
      HandlingTravels(BecomeFollower(n, m.term, m.from), m);
    } else if !n.role.Follower? && (m.VoteResp? || m.PreVoteResp?) && CountVote(cfg, n, m.from, !m.reject, n', out) {
      CountTravels(cfg, n, m.from, !m.reject, n', out);
    }
  }

  lemma EventTravels(cfg: Config, c: State, e: Event, c': State)
    requires WellFormed(cfg, c) && Happens(cfg, c, e, c') && (forall m | m in c.net :: Travels(m))
    ensures forall m | m in c'.net :: Travels(m)
  {
    hide Dispatch, Fatal;
    if e.Deliver? {
      var n := c.nodes[e.i];
      if !(InLease(cfg, n, e.m) && e.out == {}) && !(e.m.TermField() != 0 && e.m.TermField() < n.term) {
        DispatchTravels(cfg, CatchUp(n, e.m), e.m, c'.nodes[e.i], e.out);
      }
    }
  }

  /** No message in flight is addressed to its own sender. */
  lemma {:induction false} NothingToSelf(cfg: Config, boot: seq<Entry>, run: seq<State>, k: nat)
    requires IsRun(cfg, boot, run) && k < |run|
    ensures forall m | m in run[k].net :: Travels(m)
  {
    if k > 0 {
      var p := k - 1;
      NothingToSelf(cfg, boot, run, p);
      assert Next(cfg, run[p], run[p + 1]);
      var e :| Happens(cfg, run[p], e, run[p + 1]);
      EventTravels(cfg, run[p], e, run[p + 1]);
    }
  }

  // ---------------------------------------------------------------- every delivery can be stepped

  lemma RootedIsNumbered(reigns: map<Term, Reign>, log: seq<Entry>, t: Term)
    requires Rooted(reigns, log, t)
    ensures LogSpec.Numbered(log, 1)
  {
  }

  lemma ReignNumbered(cfg: Config, h: Past, t: Term)
    requires t in h.reigns && ReignOk(cfg, h, t)
    ensures LogSpec.Numbered(h.reigns[t].log, 1)
  {
    RootedIsNumbered(h.reigns, h.reigns[t].log, t);
  }

  lemma TruthIsWellSent(cfg: Config, c: State, h: Past, m: Message)
    requires PastOk(cfg, c, h) && MsgLogOk(cfg, h, m) && Election.MsgOk(cfg, h.ballots, m) && !m.Local() && !m.Prop?
    ensures RaftCore.WellSent(m)
  {
    hide Agree, CommitOk, Rooted;
    if m.App? {
      ReignNumbered(cfg, h, m.term);
      var log := h.reigns[m.term].log;
      forall i | 0 <= i < |m.entries| ensures m.entries[i].index == m.index + 1 + i {
        assert m.entries[i] == log[m.index + i];
      }
    } else if m.Snap? {
      ReignNumbered(cfg, h, m.term);
      PrefixIsIt(m.prefix, h.reigns[m.term].log, m.index);
    }
  }

  lemma PrefixIsIt(prefix: seq<Entry>, log: seq<Entry>, k: nat)
    requires Agree(prefix, log, k) && |prefix| == k && LogSpec.Numbered(log, 1)
    ensures LogSpec.Numbered(prefix, 1) && TermAt(prefix, k) == TermAt(log, k)
  {
    assert forall i | 0 <= i < k :: prefix[i] == log[i];
  }

  lemma AckWithinLog(cfg: Config, c: State, h: Past, n: Node, m: Message)
    requires PastOk(cfg, c, h) && NodeLogOk(cfg, h, n) && MsgLogOk(cfg, h, m)
    requires m.AppResp? && !m.reject && m.term == n.term && n.role.Leader?
    ensures m.index <= |n.log|
  {
    if Election.Slot(m.from, m.term) in h.acked {
      assert AckOk(cfg, c, h, Election.Slot(m.from, m.term));
    }
  }

  /**
   * Every message in flight, delivered to an object that stands where its node stands, may be
   * stepped. In particular no acknowledgement goes beyond the leader's log, and no LOG_FATAL of
   * the log is reached.
   */
  lemma DeliveryCanBeStepped(cfg: Config, boot: seq<Entry>, run: seq<State>, k: nat, i: Id, m: Message, raft: RaftCore.Raft)
    requires IsRun(cfg, boot, run) && !Election.Exposed(cfg) && k < |run| && i in cfg.voters
    requires m in run[k].net && !m.Local() && !m.Prop? && m.to == i
    requires raft.cfg == cfg && raft.View() == run[k].nodes[i]
    ensures raft.CanStep(m)
  {
    hide PastOk, NodeLogOk, MsgLogOk, Election.MsgOk, Fatal, RaftCore.WellSent;
    NothingToSelf(cfg, boot, run, k);
    assert Travels(m);
    Theorems.NoFatal(cfg, boot, run, k, i, m);
    var h, _ := HistoryAt(cfg, boot, run, k, k);
    TruthIsWellSent(cfg, run[k], h, m);
    if m.AppResp? && !m.reject && m.term == raft.term && raft.role.Leader? {
      AckWithinLog(cfg, run[k], h, raft.View(), m);
    }
  }

  /** And what it does with a snapshot in flight may be written to its log file. */
  lemma DeliveryAgrees(cfg: Config, boot: seq<Entry>, run: seq<State>, k: nat, i: Id, m: Message)
    requires IsRun(cfg, boot, run) && !Election.Exposed(cfg) && k < |run| && i in cfg.voters
    requires m in run[k].net
    ensures Journal.Agrees(run[k].nodes[i], m)
  {
    var n := run[k].nodes[i];
    if m.Snap? && n.commit < m.index {
      Theorems.SnapshotAgrees(cfg, boot, run, k, i, m);
      assert forall q | 0 <= q < n.commit :: m.prefix[q] == n.log[q];
    }
  }

  /** A server action on such an object, with what it sends, is a delivery of the cluster. */
  lemma ActIsDelivery(cfg: Config, c: State, i: Id, m: Message, raft: RaftCore.Raft, sent: seq<Message>)
    requires WellFormed(cfg, c) && i in cfg.voters && raft.cfg == cfg
    requires m.Local() || m.Prop? || (m in c.net && m.to == i)
    requires !Fatal(cfg, c.nodes[i], m)
    requires NodeAction.StepsTo(raft, c.nodes[i], m, sent)
    ensures var out := RaftCore.Since(sent, 0);
      Happens(cfg, c, Deliver(i, m, out), State(c.nodes[i := raft.View()], c.net + out))
  {
    hide Step, Fatal;
  }
}
