/**
 * What NodeSpec.LeaderMay and Cluster.Restart leave open, and the code does not: where in its log a
 * leader may start an append (raft-kv/raft/progress.cpp:14-99, raft-kv/raft/raft.cpp:140-237), and
 * which commit index a restart can lose (raft-kv/wal/wal.cpp:285, raft-kv/raft/util.cpp:49-55).
 */
module SendWindow {
  import opened Proto
  import opened NodeSpec
  import opened Cluster
  import Quorum

  predicate Rejects(m: Message, l: Id, f: Id, t: Term) {
    m.AppResp? && m.from == f && m.to == l && m.term == t && m.reject
  }

  predicate Acks(m: Message, l: Id, f: Id, t: Term) {
    m.AppResp? && m.from == f && m.to == l && m.term == t && !m.reject && m.index > 0
  }

  /** f has acknowledged index k or more to l in term t. */
  ghost predicate AckedTo(net: set<Message>, l: Id, f: Id, t: Term, k: nat) {
    exists m :: m in net && Acks(m, l, f, t) && k <= m.index
  }

  /** A rejection allows l to probe at index p: it was of an index right above p, or f's log ends at p. */
  ghost predicate LoweredTo(net: set<Message>, l: Id, f: Id, t: Term, p: nat) {
    exists m :: m in net && Rejects(m, l, f, t) && (m.index <= p + 1 || m.hint <= p)
  }

  /**
   * What next and the state of the progress allow leader n to send (progress.cpp:14-99, raft.cpp:140-237):
   * all that fits from the entry behind index on, and not nothing while there is something; behind the
   * first entry of its own only after an acknowledgement; before it only after a rejection.
   */
  ghost predicate InWindow(net: set<Message>, n: Node, m: Message)
    requires m.App?
  {
    && n.role.Leader? && m.term == n.term
    && (m.entries == [] ==> m.index == |n.log|)
    && (TermAt(n.log, m.index) == n.term ==> Quorum.Known(n.matched, m.to) > 0)
    && (m.index < |n.log| && TermAt(n.log, m.index + 1) != n.term ==> LoweredTo(net, n.id, m.to, n.term, m.index))
  }

  /** The commit index that went to disk with the node's current term. */
  ghost function Saved(cfg: Config, run: seq<State>, k: nat, i: Id): nat
    requires k < |run| && i in cfg.voters && forall q | 0 <= q < |run| :: WellFormed(cfg, run[q])
  {
    assert WellFormed(cfg, run[k]) && (k > 0 ==> WellFormed(cfg, run[k - 1]));
    if k == 0 || run[k - 1].nodes[i].term < run[k].nodes[i].term then run[k].nodes[i].commit else Saved(cfg, run, k - 1, i)
  }

  /** What is sent between two states is what send windows allow, and no snapshot. */
  ghost predicate Windowed(cfg: Config, c: State, c': State)
    requires WellFormed(cfg, c')
  {
    forall m | m in c'.net && m !in c.net && (m.App? || m.Snap?) ::
      m.App? && m.from in cfg.voters && InWindow(c.net, c'.nodes[m.from], m)
  }

  /** Leaders send what their windows allow, and no snapshots; restarts keep what was synced. */
  ghost predicate Disciplined(cfg: Config, run: seq<State>)
    requires forall k | 0 <= k < |run| :: WellFormed(cfg, run[k])
  {
    && (forall k | 0 <= k < |run| - 1 :: Windowed(cfg, run[k], run[k + 1]))
    && (forall k: nat, i: Id | k < |run| && i in cfg.voters :: Saved(cfg, run, k, i) <= run[k].nodes[i].commit)
  }

  // ---------------------------------------------------------------- longer and longer runs

  lemma {:induction false} SavedPrefix(cfg: Config, run: seq<State>, longer: seq<State>, k: nat, i: Id)
    requires run <= longer && k < |run| && i in cfg.voters && forall q | 0 <= q < |longer| :: WellFormed(cfg, longer[q])
    ensures (forall q | 0 <= q < |run| :: WellFormed(cfg, run[q])) && Saved(cfg, longer, k, i) == Saved(cfg, run, k, i)
  {
    assert forall q | 0 <= q < |run| :: run[q] == longer[q];
    if k > 0 {
      SavedPrefix(cfg, run, longer, k - 1, i);
    }
  }

  /** One state more, in which no commit index has fallen. */
  lemma DisciplinedOn(cfg: Config, run: seq<State>, c: State)
    requires |run| > 0 && (forall q | 0 <= q < |run| :: WellFormed(cfg, run[q])) && WellFormed(cfg, c)
    requires Disciplined(cfg, run) && Windowed(cfg, run[|run| - 1], c)
    requires forall i | i in cfg.voters :: run[|run| - 1].nodes[i].commit <= c.nodes[i].commit
    ensures (forall q | 0 <= q < |run + [c]| :: WellFormed(cfg, (run + [c])[q])) && Disciplined(cfg, run + [c])
  {
    hide Windowed;
    var longer := run + [c];
    assert forall q | 0 <= q < |longer| :: WellFormed(cfg, longer[q]);
    forall k | 0 <= k < |longer| - 1 ensures Windowed(cfg, longer[k], longer[k + 1]) {
      assert k < |run| - 1 ==> Windowed(cfg, run[k], run[k + 1]);
    }
    forall k: nat, i: Id | k < |longer| && i in cfg.voters ensures Saved(cfg, longer, k, i) <= longer[k].nodes[i].commit {
      if k < |run| {
        SavedPrefix(cfg, run, longer, k, i);
        assert Saved(cfg, run, k, i) <= run[k].nodes[i].commit;
      } else {
        SavedPrefix(cfg, run, longer, k - 1, i);
        assert Saved(cfg, run, k - 1, i) <= run[k - 1].nodes[i].commit;
      }
    }
  }
}
