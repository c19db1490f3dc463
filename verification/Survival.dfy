/** Every action keeps leader completeness, acknowledged entries and the logs votes were cast with. */
module Survival {
  import opened Proto
  import opened NodeSpec
  import opened Cluster
  import opened Actions
  import opened Election
  import opened History
  import opened Completeness
  import opened Preservation
  import opened Invariance

  lemma EvolvesAround(cfg: Config, c: State, h: Past, n: Node, n': Node, h': Past, c': State)
    requires WellFormed(cfg, c) && n.id in cfg.voters && c.nodes[n.id] == n
    requires c'.nodes == c.nodes[n.id := n'] && n.term <= n'.term
    requires Grows(h, h') && ChangedBy(n.id, n.term, h, h')
    ensures Evolves(cfg, c, h, c', h')
  {
  }

  lemma SurvivesLonger(voters: set<Id>, c: State, h: Past, t: Term, k: nat, log: seq<Entry>, log': seq<Entry>)
    requires Survives(voters, c, h, t, k, log) && Agree(log, log', |log|)
    ensures Survives(voters, c, h, t, k, log')
  {
  }

  // ---------------------------------------------------------------- leader completeness

  lemma CompleteStays(cfg: Config, c: State, h: Past, c': State, h': Past)
    requires Complete(cfg, c, h) && Evolves(cfg, c, h, c', h') && h'.reigns == h.reigns
    ensures Complete(cfg, c', h')
  {
    forall t, u, k: nat |
      t in h'.reigns && u in h'.reigns && t < u && Pivot(h'.reigns[t].log, t, k)
      ensures Survives(cfg.voters, c', h', t, k, h'.reigns[u].log)
    {
      assert Survives(cfg.voters, c, h, t, k, h.reigns[u].log);
      SurvivesStays(cfg, c, h, c', h', t, k, h.reigns[u].log);
    }
  }

  /** Acknowledgements of term t by nodes that have moved on stay below anything t's leader adds. */
  lemma AddedIsUnacked(cfg: Config, c: State, h: Past, n: Node, a: Action, c': State, j: Id)
    requires Scene(cfg, c, h, n, a) && (a.Win? || a.LeadAppend?)
    requires c'.nodes == c.nodes[n.id := NewNode(cfg, n, a)]
    requires j in c'.nodes && c'.nodes[j].term > n.term
    ensures Acked(NextPast(n, a, h), j, n.term) <= if n.term in h.reigns then |h.reigns[n.term].log| else 0
  {
    LeaderEffect(cfg, n, a);
    assert j != n.id;
    assert Acked(NextPast(n, a, h), j, n.term) == Acked(h, j, n.term);
    if Slot(j, n.term) in h.acked {
      assert AckOk(cfg, c, h, Slot(j, n.term));
    }
  }

  lemma LowerSide(cfg: Config, c: State, h: Past, n: Node, a: Action, c': State, u: Term, k: nat)
    requires Scene(cfg, c, h, n, a) && (a.Win? || a.LeadAppend?)
    requires c'.nodes == c.nodes[n.id := NewNode(cfg, n, a)]
    requires var h' := NextPast(n, a, h);
             && !Exposed(cfg) && Election.Inv(cfg, c', h'.ballots) && Evolves(cfg, c, h, c', h')
             && u in h'.reigns && ReignOk(cfg, h', u) && n.term < u && u in h.reigns && h'.reigns[u] == h.reigns[u]
             && Pivot(h'.reigns[n.term].log, n.term, k)
    ensures Survives(cfg.voters, c', NextPast(n, a, h), n.term, k, h.reigns[u].log)
  {
    hide Evolves, MsgOk, MsgLogOk;
    var h' := NextPast(n, a, h);
    if n.term in h.reigns && k <= |h.reigns[n.term].log| {
      assert h.reigns[n.term].log[k - 1] == h'.reigns[n.term].log[k - 1];
      assert Survives(cfg.voters, c, h, n.term, k, h.reigns[u].log);
      SurvivesStays(cfg, c, h, c', h', n.term, k, h.reigns[u].log);
    } else {
      forall j | j in cfg.voters && c'.nodes[j].term > n.term ensures Acked(h', j, n.term) < k {
        AddedIsUnacked(cfg, c, h, n, a, c', j);
      }
      ElectionBlocks(cfg, c', h', n.term, u, k);
    }
  }

  lemma UpperSide(cfg: Config, c: State, h: Past, n: Node, a: Action, c': State, t: Term, k: nat)
    requires Scene(cfg, c, h, n, a) && (a.Win? || a.LeadAppend?)
    requires !Exposed(cfg) && Election.Inv(cfg, c, h.ballots) && VotesKept(cfg, c, h)
    requires Evolves(cfg, c, h, c', NextPast(n, a, h))
    requires t in h.reigns && t < n.term && Pivot(h.reigns[t].log, t, k)
    ensures Survives(cfg.voters, c', NextPast(n, a, h), t, k, LeaderLog(n, a))
  {
    hide Survives, Agree, ReignOk, Evolves, NodeOk, MsgOk, MsgLogOk;
    var h' := NextPast(n, a, h);
    if a.Win? {
      WinnerHolds(cfg, c, h, n.id, t, k);
    } else {
      assert Survives(cfg.voters, c, h, t, k, h.reigns[n.term].log);
    }
    SurvivesStays(cfg, c, h, c', h', t, k, n.log);
    LeaderLogExtends(n, a);
    SurvivesLonger(cfg.voters, c', h', t, k, n.log, LeaderLog(n, a));
  }

  lemma LeadKeepsComplete(cfg: Config, c: State, h: Past, n: Node, a: Action, c': State)
    requires Scene(cfg, c, h, n, a) && (a.Win? || a.LeadAppend?)
    requires !Exposed(cfg) && Election.Inv(cfg, c, h.ballots) && VotesKept(cfg, c, h)
    requires c'.nodes == c.nodes[n.id := NewNode(cfg, n, a)]
    requires var h' := NextPast(n, a, h);
             && Election.Inv(cfg, c', h'.ballots) && Evolves(cfg, c, h, c', h')
             && forall u | u in h'.reigns :: ReignOk(cfg, h', u)
    ensures Complete(cfg, c', NextPast(n, a, h))
  {
    hide Survives, Agree, Election.Inv, ReignOk, VotesKept, Evolves, NewNode;
    var h' := NextPast(n, a, h);
    forall t, u, k: nat |
      t in h'.reigns && u in h'.reigns && t < u && Pivot(h'.reigns[t].log, t, k)
      ensures Survives(cfg.voters, c', h', t, k, h'.reigns[u].log)
    {
      if t == n.term {
        LowerSide(cfg, c, h, n, a, c', u, k);
      } else if u == n.term {
        UpperSide(cfg, c, h, n, a, c', t, k);
      } else {
        assert Survives(cfg.voters, c, h, t, k, h.reigns[u].log);
        SurvivesStays(cfg, c, h, c', h', t, k, h.reigns[u].log);
      }
    }
  }

  // ---------------------------------------------------------------- what a node has acknowledged

  /** n' still holds whatever n held for earlier terms. */
  ghost predicate Retains(voters: set<Id>, c: State, h: Past, n: Node, n': Node) {
    && (n'.term > n.term ==> n'.log == n.log)
    && forall t, k: nat {:trigger Survives(voters, c, h, t, k, n'.log)} |
         t < n.term && t in h.reigns && Pivot(h.reigns[t].log, t, k) && Survives(voters, c, h, t, k, n.log) ::
         Survives(voters, c, h, t, k, n'.log)
  }

  lemma FollowsRetains(cfg: Config, c: State, h: Past, n: Node, n': Node)
    requires Complete(cfg, c, h) && Follows(cfg.voters, h, n, n')
    ensures Retains(cfg.voters, c, h, n, n')
  {
    var lead := h.reigns[n.term].log;
    forall t, k: nat |
      t < n.term && t in h.reigns && Pivot(h.reigns[t].log, t, k) && Survives(cfg.voters, c, h, t, k, n.log)
      ensures Survives(cfg.voters, c, h, t, k, n'.log)
    {
      assert Survives(cfg.voters, c, h, t, k, h.reigns[n.term].log);
      if !Blocked(cfg.voters, c, h, t, k) {
        assert Agree(lead, n.log, k);
        assert Agree(lead, n'.log, k);
      }
    }
  }

  lemma ExtensionRetains(voters: set<Id>, c: State, h: Past, n: Node, n': Node)
    requires Agree(n.log, n'.log, |n.log|) && (n'.term > n.term ==> n'.log == n.log)
    ensures Retains(voters, c, h, n, n')
  {
    forall t, k: nat |
      t < n.term && t in h.reigns && Pivot(h.reigns[t].log, t, k) && Survives(voters, c, h, t, k, n.log)
      ensures Survives(voters, c, h, t, k, n'.log)
    {
      SurvivesLonger(voters, c, h, t, k, n.log, n'.log);
    }
  }

  lemma LogOnlyGrows(cfg: Config, n: Node, a: Action)
    requires Guard(cfg, n, a) && !(a.Accept? || a.AckCommitted? || a.Advance? || a.Install?)
    ensures var n' := NewNode(cfg, n, a); Agree(n.log, n'.log, |n.log|) && (n'.term > n.term ==> n'.log == n.log)
  {
  }

  lemma ActorRetains(cfg: Config, c: State, h: Past, n: Node, a: Action)
    requires Scene(cfg, c, h, n, a)
    ensures Retains(cfg.voters, c, h, n, NewNode(cfg, n, a))
  {
    if a.Accept? || a.AckCommitted? || a.Advance? || a.Install? {
      ActorFollows(cfg, c, h, n, a);
      FollowsRetains(cfg, c, h, n, NewNode(cfg, n, a));
    } else {
      LogOnlyGrows(cfg, n, a);
      ExtensionRetains(cfg.voters, c, h, n, NewNode(cfg, n, a));
    }
  }

  /** An acknowledgement from an earlier term, or of another node, is as it was. */
  lemma OldAck(cfg: Config, c: State, h: Past, h': Past, n: Node, j: Id, t: Term, k: nat)
    requires PastOk(cfg, c, h) && Grows(h, h') && ChangedBy(n.id, n.term, h, h')
    requires Slot(j, t) != Slot(n.id, n.term) || h'.acked == h.acked
    requires t in h'.reigns && Pivot(h'.reigns[t].log, t, k) && k <= Acked(h', j, t)
    ensures t in h.reigns && Pivot(h.reigns[t].log, t, k) && k <= Acked(h, j, t)
  {
    assert Slot(j, t) in h.acked && AckOk(cfg, c, h, Slot(j, t));
    assert h.reigns[t].log[k - 1] == h'.reigns[t].log[k - 1];
  }

  lemma KeepsAcks(cfg: Config, c: State, h: Past, n: Node, n': Node, h': Past, c': State)
    requires WellFormed(cfg, c) && n.id in cfg.voters && c.nodes[n.id] == n
    requires c'.nodes == c.nodes[n.id := n'] && n.term <= n'.term
    requires PastOk(cfg, c, h) && AcksKept(cfg, c, h) && Grows(h, h') && ChangedBy(n.id, n.term, h, h')
    requires Evolves(cfg, c, h, c', h') && Retains(cfg.voters, c, h, n, n') && HoldsAck(h', n, n')
    requires n'.term > n.term ==> h'.acked == h.acked
    ensures AcksKept(cfg, c', h')
  {
    hide ReignOk, Evolves, Blocked;
    forall j, t, k: nat |
      j in cfg.voters && j in c'.nodes && t in h'.reigns && Pivot(h'.reigns[t].log, t, k) && k <= Acked(h', j, t)
      ensures Survives(cfg.voters, c', h', t, k, c'.nodes[j].log)
    {
      if j == n.id && t == n.term && n'.term == n.term {
        assert Slot(j, t) in h'.acked;
      } else {
        OldAck(cfg, c, h, h', n, j, t, k);
        assert Survives(cfg.voters, c, h, t, k, c.nodes[j].log);
        if j == n.id {
          assert AckOk(cfg, c, h, Slot(j, t));
          assert Survives(cfg.voters, c, h, t, k, n'.log);
        }
        SurvivesStays(cfg, c, h, c', h', t, k, c'.nodes[j].log);
      }
    }
  }

  // ---------------------------------------------------------------- what votes were cast with

  lemma KeepsVotes(cfg: Config, c: State, h: Past, n: Node, h': Past, c': State)
    requires WellFormed(cfg, c) && n.id in cfg.voters && c.nodes[n.id] == n
    requires BallotOk(h.ballots, n) && PastOk(cfg, c, h) && AcksKept(cfg, c, h) && VotesKept(cfg, c, h)
    requires Grows(h, h') && ChangedBy(n.id, n.term, h, h') && Evolves(cfg, c, h, c', h')
    requires forall s | s in h'.ballots && s !in h.ballots ::
               h'.ballots[s].log == n.log && h'.acked == h.acked && s.node == n.id
    ensures VotesKept(cfg, c', h')
  {
    forall s, t, k: nat |
      s in h'.ballots && t in h'.reigns && t < s.term && Pivot(h'.reigns[t].log, t, k) && k <= Acked(h', s.node, t)
      ensures Survives(cfg.voters, c', h', t, k, h'.ballots[s].log)
    {
      OldAck(cfg, c, h, h', n, s.node, t, k);
      if s in h.ballots {
        assert Survives(cfg.voters, c, h, t, k, h.ballots[s].log);
      } else {
        assert Survives(cfg.voters, c, h, t, k, c.nodes[n.id].log);
      }
      SurvivesStays(cfg, c, h, c', h', t, k, h'.ballots[s].log);
    }
  }
}
