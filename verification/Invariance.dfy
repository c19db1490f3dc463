/** Every action keeps the history invariant: the record itself, and what must survive. */
module Invariance {
  import opened Proto
  import opened NodeSpec
  import opened Cluster
  import opened Actions
  import opened Election
  import opened History
  import opened Completeness
  import opened Preservation
  import LogMatching

  // ---------------------------------------------------------------- the record

  lemma ReignStays(cfg: Config, h: Past, h': Past, t: Term)
    requires t in h.reigns && ReignOk(cfg, h, t) && Grows(h, h') && h'.reigns[t] == h.reigns[t]
    ensures ReignOk(cfg, h', t)
  {
    RootedGrows(h.reigns, h'.reigns, h.reigns[t].log, t);
    if t != BOOT_TERM {
      WonStays(cfg, h.ballots, h'.ballots, t, h.reigns[t].leader);
    }
  }

  lemma LedReignOk(cfg: Config, h: Past, n: Node)
    requires NodeLogOk(cfg, h, n) && NodeOk(cfg, h.ballots, n) && n.role.Leader?
    requires cfg.Valid() && n.id in cfg.voters
    ensures ReignOk(cfg, h, n.term)
  {
  }

  lemma ReignsOk(cfg: Config, c: State, h: Past, n: Node, a: Action)
    requires Scene(cfg, c, h, n, a) && !Exposed(cfg)
    requires NodeLogOk(cfg, NextPast(n, a, h), NewNode(cfg, n, a))
    requires NodeOk(cfg, NextPast(n, a, h).ballots, NewNode(cfg, n, a))
    ensures var h' := NextPast(n, a, h); forall t | t in h'.reigns :: ReignOk(cfg, h', t)
  {
    var h', n' := NextPast(n, a, h), NewNode(cfg, n, a);
    PastGrows(cfg, h, n, a);
    NewNodeKeepsShape(cfg, n, a);
    forall t | t in h'.reigns ensures ReignOk(cfg, h', t) {
      if t in h.reigns && h'.reigns[t] == h.reigns[t] {
        ReignStays(cfg, h, h', t);
      } else {
        LeaderEffect(cfg, n, a);
        LedReignOk(cfg, h', n');
      }
    }
  }

  lemma LeaderEffect(cfg: Config, n: Node, a: Action)
    requires Guard(cfg, n, a) && (a.Win? || a.LeadAppend?)
    ensures NewNode(cfg, n, a).role.Leader? && NewNode(cfg, n, a).term == n.term
  {
  }

  lemma BallotStays(cfg: Config, h: Past, h': Past, s: Slot)
    requires s in h.ballots && BallotHistoryOk(cfg, h, s) && Grows(h, h')
    ensures BallotHistoryOk(cfg, h', s)
  {
    RootedGrows(h.reigns, h'.reigns, h.ballots[s].log, s.term - 1);
  }

  lemma CandStays(h: Past, h': Past, s: Slot)
    requires s in h.cands && CandOk(h, s) && Grows(h, h')
    ensures CandOk(h', s)
  {
    RootedGrows(h.reigns, h'.reigns, h.cands[s], s.term - 1);
  }

  /** A voter that grants a request has no entry of the term it votes in. */
  lemma VoterLogOlder(cfg: Config, h: Past, log: seq<Entry>, t: Term, w: seq<Entry>)
    requires forall u | u in h.reigns :: ReignOk(cfg, h, u)
    requires t >= 1 && Rooted(h.reigns, log, t) && Rooted(h.reigns, w, t - 1)
    requires UpToDate(log, |w|, LastTerm(w))
    ensures Rooted(h.reigns, log, t - 1)
  {
    forall i | 0 <= i < |log| ensures log[i].term <= t - 1 {
      var last := |log| - 1;
      assert ReignOk(cfg, h, log[last].term);
      LogMatching.TermsGrow(h.reigns, log, t, i, last);
      assert |w| > 0 ==> w[|w| - 1].term <= t - 1;
    }
  }

  lemma GrantedBallotOk(cfg: Config, c: State, h: Past, h': Past, n: Node, m: Message)
    requires PastOk(cfg, c, h) && NodeLogOk(cfg, h, n) && n.id in cfg.voters && Grows(h, h')
    requires m.Vote? && m.term == n.term && MsgLogOk(cfg, h, m) && UpToDate(n.log, m.index, m.logTerm)
    requires VotedFor(h'.ballots, n.id, n.term, m.from) && h'.ballots[Slot(n.id, n.term)].log == n.log
    ensures BallotHistoryOk(cfg, h', Slot(n.id, n.term))
  {
    var w := h.cands[Slot(m.from, n.term)];
    assert CandOk(h, Slot(m.from, n.term));
    VoterLogOlder(cfg, h, n.log, n.term, w);
    RootedGrows(h.reigns, h'.reigns, n.log, n.term - 1);
  }

  lemma OwnBallotOk(cfg: Config, h: Past, h': Past, n: Node)
    requires NodeLogOk(cfg, h, n) && n.id in cfg.voters && Grows(h, h')
    requires VotedFor(h'.ballots, n.id, n.term + 1, n.id) && h'.ballots[Slot(n.id, n.term + 1)].log == n.log
    requires Slot(n.id, n.term + 1) in h'.cands && h'.cands[Slot(n.id, n.term + 1)] == n.log
    ensures BallotHistoryOk(cfg, h', Slot(n.id, n.term + 1))
  {
    RootedGrows(h.reigns, h'.reigns, n.log, n.term);
  }

  lemma NewBallotOk(cfg: Config, c: State, h: Past, n: Node, a: Action, s: Slot)
    requires Scene(cfg, c, h, n, a) && Grows(h, NextPast(n, a, h))
    requires s in NextPast(n, a, h).ballots && s !in h.ballots
    ensures BallotHistoryOk(cfg, NextPast(n, a, h), s)
  {
    if a.Grant? {
      assert a.m in Consumed(a);
      GrantedBallotOk(cfg, c, h, NextPast(n, a, h), n, a.m);
    } else {
      OwnBallotOk(cfg, h, NextPast(n, a, h), n);
    }
  }

  lemma BallotsOk(cfg: Config, c: State, h: Past, n: Node, a: Action)
    requires Scene(cfg, c, h, n, a)
    ensures var h' := NextPast(n, a, h); forall s | s in h'.ballots :: BallotHistoryOk(cfg, h', s)
    ensures var h' := NextPast(n, a, h); forall s | s in h'.cands :: CandOk(h', s)
  {
    var h' := NextPast(n, a, h);
    PastGrows(cfg, h, n, a);
    forall s | s in h'.ballots ensures BallotHistoryOk(cfg, h', s) {
      if s in h.ballots {
        BallotStays(cfg, h, h', s);
      } else {
        NewBallotOk(cfg, c, h, n, a, s);
      }
    }
    forall s | s in h'.cands ensures CandOk(h', s) {
      if s in h.cands {
        CandStays(h, h', s);
      } else {
        RootedGrows(h.reigns, h'.reigns, n.log, n.term);
      }
    }
  }

  lemma TermRises(cfg: Config, n: Node, a: Action)
    requires Guard(cfg, n, a)
    ensures n.term <= NewNode(cfg, n, a).term && NewNode(cfg, n, a).id == n.id
  {
  }

  lemma AckStays(cfg: Config, c: State, h: Past, c': State, h': Past, s: Slot)
    requires s in h.acked && AckOk(cfg, c, h, s) && Grows(h, h') && s in h'.acked && h'.acked[s] == h.acked[s]
    requires s.node in c'.nodes && c.nodes[s.node].term <= c'.nodes[s.node].term
    requires c'.nodes[s.node].log == c.nodes[s.node].log || s.term < c'.nodes[s.node].term
    ensures AckOk(cfg, c', h', s)
  {
  }

  /** The node's acknowledgement in its own term, as the action leaves it. */
  ghost predicate HoldsAck(h: Past, n: Node, n': Node) {
    var s := Slot(n.id, n.term);
    s in h.acked ==>
      && n.term in h.reigns && h.acked[s] <= |h.reigns[n.term].log|
      && n.term <= n'.term
      && (n'.term == n.term ==> Agree(h.reigns[n.term].log, n'.log, h.acked[s]))
  }

  lemma QuietHoldsAck(cfg: Config, h: Past, n: Node, a: Action)
    requires HoldsAck(h, n, n) && Guard(cfg, n, a) && (Quiet(a) || a.LeadCommit?)
    ensures HoldsAck(NextPast(n, a, h), n, NewNode(cfg, n, a))
  {
  }

  lemma LeaderHoldsAck(cfg: Config, h: Past, n: Node, a: Action)
    requires HoldsAck(h, n, n) && Guard(cfg, n, a) && (a.Win? || a.LeadAppend?)
    ensures HoldsAck(NextPast(n, a, h), n, NewNode(cfg, n, a))
  {
    var n' := NewNode(cfg, n, a);
    LeaderLogExtends(n, a);
    assert n'.log == LeaderLog(n, a) && |n.log| <= |n'.log|;
  }

  lemma FollowerHoldsAck(cfg: Config, h: Past, n: Node, n': Node, h': Past, k: nat)
    requires HoldsAck(h, n, n) && Follows(cfg.voters, h, n, n') && h'.reigns == h.reigns
    requires Agree(h.reigns[n.term].log, n'.log, k)
    requires h'.acked == h.acked || h'.acked == h.acked[Slot(n.id, n.term) := Max(Acked(h, n.id, n.term), k)]
    ensures HoldsAck(h', n, n')
  {
    if Slot(n.id, n.term) in h.acked {
      assert Agree(h.reigns[n.term].log, n'.log, h.acked[Slot(n.id, n.term)]);
    }
  }

  lemma AcceptHoldsAck(cfg: Config, c: State, h: Past, n: Node, a: Action)
    requires Scene(cfg, c, h, n, a) && HoldsAck(h, n, n) && (a.Accept? || a.AckCommitted?)
    ensures HoldsAck(NextPast(n, a, h), n, NewNode(cfg, n, a))
  {
    assert a.m in Consumed(a);
    ActorFollows(cfg, c, h, n, a);
    if a.Accept? {
      AcceptFollows(cfg, c, h, n, a.m);
    } else {
      CommitInLeaderLog(cfg, c, h, n.term, n.log, n.commit);
    }
    FollowerHoldsAck(cfg, h, n, NewNode(cfg, n, a), NextPast(n, a, h), NewAck(n, a));
  }

  lemma CurrentAckOk(cfg: Config, c: State, h: Past, n: Node, a: Action)
    requires Scene(cfg, c, h, n, a)
    ensures HoldsAck(NextPast(n, a, h), n, NewNode(cfg, n, a))
  {
    assert HoldsAck(h, n, n) by {
      if Slot(n.id, n.term) in h.acked {
        assert AckOk(cfg, c, h, Slot(n.id, n.term));
      }
    }
    if Quiet(a) || a.LeadCommit? {
      QuietHoldsAck(cfg, h, n, a);
    } else if a.Win? || a.LeadAppend? {
      LeaderHoldsAck(cfg, h, n, a);
    } else if a.Accept? || a.AckCommitted? {
      AcceptHoldsAck(cfg, c, h, n, a);
    } else {
      ActorFollows(cfg, c, h, n, a);
      FollowerHoldsAck(cfg, h, n, NewNode(cfg, n, a), NextPast(n, a, h), 0);
    }
  }

  lemma AcksOkAround(cfg: Config, c: State, h: Past, n: Node, n': Node, h': Past, c': State)
    requires WellFormed(cfg, c) && n.id in cfg.voters && c.nodes[n.id] == n && n'.id == n.id
    requires c'.nodes == c.nodes[n.id := n'] && n.term <= n'.term
    requires (forall s | s in h.acked :: AckOk(cfg, c, h, s)) && Grows(h, h') && ChangedBy(n.id, n.term, h, h')
    requires HoldsAck(h', n, n')
    ensures forall s | s in h'.acked :: AckOk(cfg, c', h', s)
  {
    forall s | s in h'.acked ensures AckOk(cfg, c', h', s) {
      if s != Slot(n.id, n.term) {
        assert s in h.acked && AckOk(cfg, c, h, s);
        AckStays(cfg, c, h, c', h', s);
      }
    }
  }
}
