/** Every event of the cluster is a chain of actions. */
module Refinement {
  import opened Proto
  import opened NodeSpec
  import opened Cluster
  import opened Actions
  import Quorum
  import Election

  lemma Append(cfg: Config, c: State, i: Id, p: Path, c1: State, a: Action, c2: State) returns (q: Path)
    requires Leads(cfg, c, i, p, c1) && Moves(cfg, c1, a, c2) && Own(c, i, a)
    ensures Leads(cfg, c, i, q, c2)
  {
    q := Path(p.states + [c2], p.acts + [a]);
    forall k | 0 <= k < |q.acts| ensures Moves(cfg, q.states[k], q.acts[k], q.states[k + 1]) && Own(c, i, q.acts[k]) {
      if k < |p.acts| {
        assert q.acts[k] == p.acts[k];
      }
    }
  }

  lemma Start(cfg: Config, c: State, i: Id) returns (p: Path)
    requires i in c.nodes
    ensures Leads(cfg, c, i, p, Put(c, i, c.nodes[i], {}))
  {
    assert Put(c, i, c.nodes[i], {}) == c;
    p := Path([c], []);
  }

  lemma MovesOn(cfg: Config, c: State, i: Id, n: Node, out: set<Message>, a: Action, out': set<Message>)
    requires WellFormed(cfg, c) && i in cfg.voters && n.id == i && a.i == i
    requires Guard(cfg, n, a) && Consumed(a) <= c.net
    requires out' == out + NewMessages(cfg, n, a)
    ensures Moves(cfg, Put(c, i, n, out), a, Put(c, i, NewNode(cfg, n, a), out'))
  {
    var c1 := Put(c, i, n, out);
    ReplaceWellFormed(cfg, c, i, n, out);
    assert c1.nodes[i] == n;
    assert Consumed(a) <= c1.net;
    assert c1.nodes[i := NewNode(cfg, n, a)] == c.nodes[i := NewNode(cfg, n, a)];
    assert c1.net + NewMessages(cfg, n, a) == c.net + out';
  }

  /** One more action on the same node. */
  lemma Extend(cfg: Config, c: State, p: Path, i: Id, n: Node, out: set<Message>, a: Action,
               n': Node, out': set<Message>) returns (q: Path)
    requires WellFormed(cfg, c) && Leads(cfg, c, i, p, Put(c, i, n, out))
    requires i in cfg.voters && n.id == i && a.i == i && !a.Recover?
    requires Guard(cfg, n, a) && Consumed(a) <= c.net
    requires n' == NewNode(cfg, n, a) && out' == out + NewMessages(cfg, n, a)
    ensures Leads(cfg, c, i, q, Put(c, i, n', out')) && n'.id == i
  {
    MovesOn(cfg, c, i, n, out, a, out');
    NewNodeKeepsShape(cfg, n, a);
    q := Append(cfg, c, i, p, Put(c, i, n, out), a, Put(c, i, n', out'));
  }

  lemma CommitRefines(cfg: Config, c: State, p: Path, i: Id, n: Node, out: set<Message>) returns (q: Path)
    requires WellFormed(cfg, c) && Leads(cfg, c, i, p, Put(c, i, n, out))
    requires i in cfg.voters && n.id == i && n.role.Leader?
    ensures Leads(cfg, c, i, q, Put(c, i, MaybeCommit(cfg.voters, n), out))
  {
    var k := Quorum.MajorityIndex(cfg.voters, n.matched);
    if k > n.commit && TermAt(n.log, k) == n.term {
      q := Extend(cfg, c, p, i, n, out, LeadCommit(i, k), n.(commit := k), out);
    } else {
      q := p;
    }
  }

  lemma SendsRefines(cfg: Config, c: State, p: Path, i: Id, n: Node, out: set<Message>) returns (q: Path)
    requires WellFormed(cfg, c) && Leads(cfg, c, i, p, Put(c, i, n, {}))
    requires i in cfg.voters && n.id == i
    requires forall m | m in out :: MayEmit(cfg, n, m)
    ensures Leads(cfg, c, i, q, Put(c, i, n, out))
  {
    q := Extend(cfg, c, p, i, n, {}, Emit(i, out), n, out);
  }

  lemma WinRefines(cfg: Config, c: State, p: Path, i: Id, n: Node, out: set<Message>) returns (q: Path)
    requires WellFormed(cfg, c) && Leads(cfg, c, i, p, Put(c, i, n, out))
    requires i in cfg.voters && n.id == i
    requires n.role.Candidate? && Quorum.Size(cfg.voters) == |n.granted|
    ensures Leads(cfg, c, i, q, Put(c, i, BecomeLeader(cfg.voters, n), out))
  {
    var n1 := Crowned(n);
    q := Extend(cfg, c, p, i, n, out, Win(i), n1, out);
    q := CommitRefines(cfg, c, q, i, n1, out);
    CrownedThenCommit(cfg, n);
  }

  lemma CrownedThenCommit(cfg: Config, n: Node)
    requires n.id in cfg.voters
    ensures BecomeLeader(cfg.voters, n) == MaybeCommit(cfg.voters, Crowned(n))
  {
    var r := Reset(n, n.term).(lead := n.id, role := Leader);
    var log := n.log + Stamp(n.term, |n.log|, [NOOP]);
    assert r.matched[n.id := |log|] == map[n.id := |log|];
  }

  lemma SoleVoter(cfg: Config, i: Id)
    requires i in cfg.voters && Quorum.Size(cfg.voters) == 1
    ensures cfg.voters == {i}
  {
    assert |cfg.voters - {i}| == |cfg.voters| - 1;
  }

  lemma CampaignRefines(cfg: Config, c: State, p: Path, i: Id, n: Node, force: bool) returns (q: Path)
    requires WellFormed(cfg, c) && Leads(cfg, c, i, p, Put(c, i, n, {}))
    requires i in cfg.voters && n.id == i && !n.role.Leader?
    ensures Leads(cfg, c, i, q, Put(c, i, Campaign(cfg.voters, n, force).0, Campaign(cfg.voters, n, force).1))
  {
    var v := Poll(BecomeCandidate(n), i, true);
    assert v.granted == {i};
    var sent := VoteRequests(cfg.voters, v, force);
    q := Extend(cfg, c, p, i, n, {}, Stand(i, force), v, sent);
    if Quorum.Size(cfg.voters) == 1 {
      SoleVoter(cfg, i);
      assert sent == {};
      q := WinRefines(cfg, c, q, i, v, {});
    }
  }

  lemma PreCampaignRefines(cfg: Config, c: State, p: Path, i: Id, n: Node) returns (q: Path)
    requires WellFormed(cfg, c) && Leads(cfg, c, i, p, Put(c, i, n, {}))
    requires i in cfg.preVote && i in cfg.voters && n.id == i && !n.role.Leader?
    ensures Leads(cfg, c, i, q, Put(c, i, PreCampaign(cfg.voters, n).0, PreCampaign(cfg.voters, n).1))
  {
    var v := Poll(BecomePreCandidate(n), i, true);
    assert v.granted == {i};
    var sent := PreVoteRequests(cfg.voters, v);
    assert sent == PreVoteRequests(cfg.voters, n);
    q := Extend(cfg, c, p, i, n, {}, PreStand(i), v, sent);
    if Quorum.Size(cfg.voters) == 1 {
      SoleVoter(cfg, i);
      assert sent == {};
      q := CampaignRefines(cfg, c, q, i, v, false);
    }
  }

  lemma VoteRefines(cfg: Config, c: State, p: Path, i: Id, n: Node, m: Message) returns (q: Path)
    requires WellFormed(cfg, c) && Leads(cfg, c, i, p, Put(c, i, n, {}))
    requires i in cfg.voters && n.id == i && n.term >= 1
    requires m in c.net && (m.Vote? || m.PreVote?) && m.to == i && m.term >= n.term
    requires m.Vote? ==> m.term == n.term
    requires m.PreVote? ==> m.from in cfg.preVote
    ensures Leads(cfg, c, i, q, Put(c, i, HandleVote(n, m).0, HandleVote(n, m).1))
  {
    var (n', out) := HandleVote(n, m);
    if m.Vote? && out == {VoteResp(i, m.from, m.term, false)} {
      assert VoteResp(i, m.from, n.term, true) !in out;
      q := Extend(cfg, c, p, i, n, {}, Grant(i, m), n', out);
    } else {
      q := SendsRefines(cfg, c, p, i, n, out);
    }
  }

  lemma FromLeaderRefines(cfg: Config, c: State, p: Path, i: Id, n: Node, m: Message) returns (q: Path)
    requires WellFormed(cfg, c) && Leads(cfg, c, i, p, Put(c, i, n, {}))
    requires i in cfg.voters && n.id == i && n.role.Follower?
    requires m in c.net && (m.App? || m.Heartbeat? || m.Snap?) && m.to == i && m.term == n.term
    requires !LogFatal(n, m)
    ensures Leads(cfg, c, i, q, Put(c, i, HandleFromLeader(n, m).0, HandleFromLeader(n, m).1))
  {
    var (n', out) := HandleFromLeader(n, m);
    var a :=
      if m.Heartbeat? then Advance(i, m)
      else if m.Snap? then Install(i, m)
      else if m.index < n.commit then AckCommitted(i, m)
      else if Accepts(n, m) then Accept(i, m)
      else TurnDown(i, m);
    q := Extend(cfg, c, p, i, n, {}, a, n', out);
  }

  lemma VictoryRefines(cfg: Config, c: State, p: Path, i: Id, v: Node, out: set<Message>) returns (q: Path)
    requires WellFormed(cfg, c) && Leads(cfg, c, i, p, Put(c, i, v, {}))
    requires i in cfg.voters && v.id == i && v.role.Candidate? && Quorum.Size(cfg.voters) == |v.granted|
    requires LeaderSends(cfg.voters, BecomeLeader(cfg.voters, v), out)
    ensures Leads(cfg, c, i, q, Put(c, i, BecomeLeader(cfg.voters, v), out))
  {
    q := WinRefines(cfg, c, p, i, v, {});
    CrownedThenCommit(cfg, v);
    q := SendsRefines(cfg, c, q, i, BecomeLeader(cfg.voters, v), out);
  }

  lemma CountRefines(cfg: Config, c: State, p: Path, i: Id, n: Node, m: Message, n': Node, out: set<Message>)
    returns (q: Path)
    requires WellFormed(cfg, c) && Leads(cfg, c, i, p, Put(c, i, n, {}))
    requires i in cfg.voters && n.id == i
    requires m in c.net && Guard(cfg, n, Tally(i, m)) && CountVote(cfg, n, m.from, !m.reject, n', out)
    ensures Leads(cfg, c, i, q, Put(c, i, n', out))
  {
    hide Leads, Campaign, BecomeLeader, LeaderMay;
    var v := Poll(n, m.from, !m.reject);
    q := Extend(cfg, c, p, i, n, {}, Tally(i, m), v, {});
    if Quorum.Size(cfg.voters) == |v.granted| {
      if v.role.PreCandidate? {
        q := CampaignRefines(cfg, c, q, i, v, false);
      } else {
        q := VictoryRefines(cfg, c, q, i, v, out);
      }
    } else if Quorum.Size(cfg.voters) == |v.refused| {
      q := Extend(cfg, c, q, i, v, {}, StepDown(i, v.term, NONE), n', {});
    }
  }

  lemma ProposalRefines(cfg: Config, c: State, p: Path, i: Id, n: Node, ents: seq<Entry>, out: set<Message>)
    returns (q: Path)
    requires WellFormed(cfg, c) && Leads(cfg, c, i, p, Put(c, i, n, {}))
    requires i in cfg.voters && n.id == i && n.role.Leader?
    requires LeaderSends(cfg.voters, AppendEntry(cfg.voters, n, ents), out)
    ensures Leads(cfg, c, i, q, Put(c, i, AppendEntry(cfg.voters, n, ents), out))
  {
    var n1 := Lengthened(n, ents);
    q := Extend(cfg, c, p, i, n, {}, LeadAppend(i, ents), n1, {});
    q := CommitRefines(cfg, c, q, i, n1, {});
    var n' := MaybeCommit(cfg.voters, n1);
    assert n' == AppendEntry(cfg.voters, n, ents);
    q := SendsRefines(cfg, c, q, i, n', out);
  }

  lemma LeaderRefines(cfg: Config, c: State, p: Path, i: Id, n: Node, m: Message, n': Node, out: set<Message>)
    returns (q: Path)
    requires WellFormed(cfg, c) && Leads(cfg, c, i, p, Put(c, i, n, {}))
    requires i in cfg.voters && n.id == i && n.role.Leader?
    requires m.AppResp? ==> m in c.net && m.to == i && m.term == n.term
    requires StepLeader(cfg, n, m, n', out)
    ensures Leads(cfg, c, i, q, Put(c, i, n', out))
  {
    if n' == n {
      q := SendsRefines(cfg, c, p, i, n, out);
    } else if m.CheckQuorum? {
      q := Extend(cfg, c, p, i, n, {}, StepDown(i, n.term, NONE), n', {});
    } else if m.Prop? {
      var ents :| n' == AppendEntry(cfg.voters, n, ents) && LeaderSends(cfg.voters, n', out);
      q := ProposalRefines(cfg, c, p, i, n, ents, out);
    } else {
      var n1 := n.(matched := n.matched[m.from := m.index]);
      q := Extend(cfg, c, p, i, n, {}, LeadMatch(i, m), n1, {});
      q := CommitRefines(cfg, c, q, i, n1, {});
      q := SendsRefines(cfg, c, q, i, n', out);
    }
  }

  lemma FollowerRefines(cfg: Config, c: State, p: Path, i: Id, n: Node, m: Message, n': Node, out: set<Message>)
    returns (q: Path)
    requires WellFormed(cfg, c) && Leads(cfg, c, i, p, Put(c, i, n, {}))
    requires i in cfg.voters && n.id == i && n.role.Follower?
    requires m.App? || m.Heartbeat? || m.Snap? ==>
               m in c.net && m.to == i && m.term == n.term && !LogFatal(n, m)
    requires StepFollower(cfg, n, m, n', out)
    ensures Leads(cfg, c, i, q, Put(c, i, n', out))
  {
    if m.App? || m.Heartbeat? || m.Snap? {
      q := Extend(cfg, c, p, i, n, {}, Follow(i, m.from), n.(lead := m.from), {});
      q := FromLeaderRefines(cfg, c, q, i, n.(lead := m.from), m);
    } else if m.TimeoutNow? {
      q := CampaignRefines(cfg, c, p, i, n, true);
    } else {
      q := SendsRefines(cfg, c, p, i, n, out);
    }
  }

  lemma CandidateRefines(cfg: Config, c: State, p: Path, i: Id, n: Node, m: Message, n': Node, out: set<Message>)
    returns (q: Path)
    requires WellFormed(cfg, c) && Leads(cfg, c, i, p, Put(c, i, n, {}))
    requires i in cfg.voters && n.id == i && !n.role.Follower? && !n.role.Leader?
    requires m.App? || m.Heartbeat? || m.Snap? ==>
               m in c.net && m.to == i && m.term == n.term && !LogFatal(n, m)
    requires m.VoteResp? || m.PreVoteResp? ==> m in c.net && m.to == i
    requires m.VoteResp? ==> m.term == n.term
    requires StepCandidate(cfg, n, m, n', out)
    ensures Leads(cfg, c, i, q, Put(c, i, n', out))
  {
    if m.App? || m.Heartbeat? || m.Snap? {
      var n1 := BecomeFollower(n, m.term, m.from);
      q := Extend(cfg, c, p, i, n, {}, StepDown(i, n.term, m.from), n1, {});
      q := FromLeaderRefines(cfg, c, q, i, n1, m);
    } else if n' == n && out == {} {
      q := p;
    } else {
      q := CountRefines(cfg, c, p, i, n, m, n', out);
    }
  }

  lemma DispatchRefines(cfg: Config, c: State, p: Path, i: Id, n: Node, m: Message, n': Node, out: set<Message>)
    returns (q: Path)
    requires WellFormed(cfg, c) && Leads(cfg, c, i, p, Put(c, i, n, {}))
    requires i in cfg.voters && n.id == i && n.term >= 1
    requires m.Local() || m.Prop? || (m in c.net && m.to == i && m.term >= n.term)
    requires m.PreVote? ==> m.from in cfg.preVote
    requires m.TermField() > n.term ==> m.PreVote? || m.PreVoteResp?
    requires m.App? || m.Heartbeat? || m.Snap? ==> n.role.Leader? || !LogFatal(n, m)
    requires Dispatch(cfg, n, m, n', out)
    ensures Leads(cfg, c, i, q, Put(c, i, n', out))
  {
    if m.Hup? {
      if n' == n && out == {} {
        q := p;
      } else if i in cfg.preVote {
        q := PreCampaignRefines(cfg, c, p, i, n);
      } else {
        q := CampaignRefines(cfg, c, p, i, n, false);
      }
    } else if m.Vote? || m.PreVote? {
      q := VoteRefines(cfg, c, p, i, n, m);
    } else if n.role.Leader? {
      q := LeaderRefines(cfg, c, p, i, n, m, n', out);
    } else if n.role.Follower? {
      q := FollowerRefines(cfg, c, p, i, n, m, n', out);
    } else {
      q := CandidateRefines(cfg, c, p, i, n, m, n', out);
    }
  }

  lemma DeliveryRefines(cfg: Config, c: State, i: Id, m: Message, n': Node, out: set<Message>) returns (q: Path)
    requires WellFormed(cfg, c) && i in cfg.voters && c.nodes[i].term >= 1
    requires m.Local() || m.Prop? || (m in c.net && m.to == i && m.term >= 1)
    requires m.PreVote? ==> m.from in cfg.preVote
    requires !Fatal(cfg, c.nodes[i], m) && Step(cfg, c.nodes[i], m, n', out)
    ensures Leads(cfg, c, i, q, Put(c, i, n', out))
  {
    var n := c.nodes[i];
    q := Start(cfg, c, i);
    if n' == n && out == {} {
    } else if m.TermField() != 0 && m.TermField() < n.term {
      q := SendsRefines(cfg, c, q, i, n, out);
    } else {
      var n1 := CatchUp(n, m);
      if n1 != n {
        var lead := if m.App? || m.Heartbeat? || m.Snap? then m.from else NONE;
        q := Extend(cfg, c, q, i, n, {}, StepDown(i, m.term, lead), n1, {});
      }
      q := DispatchRefines(cfg, c, q, i, n1, m, n', out);
    }
  }

  /** Deliveries refine to actions: the bridge from the node's code to the protocol invariants. */
  lemma DeliverRefines(cfg: Config, c: State, b: Election.Ballots, e: Event, c': State) returns (q: Path)
    requires Election.Inv(cfg, c, b) && Happens(cfg, c, e, c') && e.Deliver?
    ensures Leads(cfg, c, e.i, q, c')
  {
    assert Election.NodeOk(cfg, b, c.nodes[e.i]);
    assert e.m in c.net ==> Election.MsgOk(cfg, b, e.m);
    q := DeliveryRefines(cfg, c, e.i, e.m, c'.nodes[e.i], e.out);
  }

  /** And a restart is an action. */
  lemma RestartRefines(cfg: Config, c: State, e: Event, c': State)
    requires WellFormed(cfg, c) && Happens(cfg, c, e, c') && e.Restart?
    ensures Moves(cfg, c, Recover(e.i, e.commit), c')
  {
    assert c' == Put(c, e.i, Restarted(c.nodes[e.i], e.commit), {});
  }
}
