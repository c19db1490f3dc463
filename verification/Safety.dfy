/** Every action keeps the whole history invariant, of nodes, messages, the record and what must survive. */
module Safety {
  import opened Proto
  import opened NodeSpec
  import opened Cluster
  import opened Actions
  import opened Election
  import opened History
  import opened Completeness
  import opened Preservation
  import opened Invariance
  import opened Survival

  // ---------------------------------------------------------------- one action

  lemma NodesOk(cfg: Config, c: State, h: Past, n: Node, n': Node, h': Past)
    requires WellFormed(cfg, c) && n.id in cfg.voters && c.nodes[n.id] == n && n'.id == n.id
    requires forall i | i in cfg.voters :: NodeLogOk(cfg, h, c.nodes[i])
    requires Grows(h, h') && ChangedBy(n.id, n.term, h, h') && NodeLogOk(cfg, h', n')
    ensures forall i | i in cfg.voters :: NodeLogOk(cfg, h', c.nodes[n.id := n'][i])
  {
    var nodes' := c.nodes[n.id := n'];
    forall i | i in cfg.voters ensures NodeLogOk(cfg, h', nodes'[i]) {
      if i != n.id {
        var x := c.nodes[i];
        assert nodes'[i] == x && x.id != n.id;
        BystanderLogOk(cfg, h, h', x, n.id, n.term);
      }
    }
  }

  lemma MessagesOk(cfg: Config, net: set<Message>, h: Past, out: set<Message>, h': Past)
    requires forall m | m in net :: MsgLogOk(cfg, h, m)
    requires Grows(h, h') && forall m | m in out :: MsgLogOk(cfg, h', m)
    ensures forall m | m in net + out :: MsgLogOk(cfg, h', m)
  {
    forall m | m in net ensures MsgLogOk(cfg, h', m) {
      MsgGrows(cfg, h, h', m);
    }
  }

  /** What NextPast leaves alone, by kind of action. */
  lemma PastEffect(cfg: Config, h: Past, n: Node, a: Action)
    requires Guard(cfg, n, a)
    ensures var h', n' := NextPast(n, a, h), NewNode(cfg, n, a);
            && (!(a.Win? || a.LeadAppend?) ==> h'.reigns == h.reigns)
            && (n'.term > n.term ==> h'.acked == h.acked)
            && (forall s | s in h'.ballots && s !in h.ballots ::
                  h'.ballots[s].log == n.log && h'.acked == h.acked && s.node == n.id)
  {
  }

  lemma RecordOk(cfg: Config, c: State, h: Past, n: Node, a: Action, c': State)
    requires Scene(cfg, c, h, n, a) && !Exposed(cfg) && WellFormed(cfg, c)
    requires c' == Put(c, n.id, NewNode(cfg, n, a), NewMessages(cfg, n, a))
    requires NodeLogOk(cfg, NextPast(n, a, h), NewNode(cfg, n, a))
    requires NodeOk(cfg, NextPast(n, a, h).ballots, NewNode(cfg, n, a))
    ensures PastOk(cfg, c', NextPast(n, a, h))
  {
    ReignsOk(cfg, c, h, n, a);
    BallotsOk(cfg, c, h, n, a);
    CurrentAckOk(cfg, c, h, n, a);
    PastGrows(cfg, h, n, a);
    TermRises(cfg, n, a);
    AcksOkAround(cfg, c, h, n, NewNode(cfg, n, a), NextPast(n, a, h), c');
  }

  lemma SurvivalOk(cfg: Config, c: State, h: Past, n: Node, a: Action, c': State)
    requires History.Inv(cfg, c, h) && Scene(cfg, c, h, n, a)
    requires c' == Put(c, n.id, NewNode(cfg, n, a), NewMessages(cfg, n, a))
    requires Election.Inv(cfg, c', NextPast(n, a, h).ballots) && PastOk(cfg, c', NextPast(n, a, h))
    ensures var h' := NextPast(n, a, h); Complete(cfg, c', h') && AcksKept(cfg, c', h') && VotesKept(cfg, c', h')
  {
    var h', n' := NextPast(n, a, h), NewNode(cfg, n, a);
    PastGrows(cfg, h, n, a);
    TermRises(cfg, n, a);
    PastEffect(cfg, h, n, a);
    EvolvesAround(cfg, c, h, n, n', h', c');
    if a.Win? || a.LeadAppend? {
      LeadKeepsComplete(cfg, c, h, n, a, c');
    } else {
      CompleteStays(cfg, c, h, c', h');
    }
    ActorRetains(cfg, c, h, n, a);
    CurrentAckOk(cfg, c, h, n, a);
    KeepsAcks(cfg, c, h, n, n', h', c');
    KeepsVotes(cfg, c, h, n, h', c');
  }

  lemma ActionKeepsHistory(cfg: Config, c: State, h: Past, a: Action, c': State) returns (h': Past)
    requires History.Inv(cfg, c, h) && Moves(cfg, c, a, c')
    ensures History.Inv(cfg, c', h') && Grows(h, h')
  {
    var n := c.nodes[a.i];
    h' := NextPast(n, a, h);
    SetScene(cfg, c, h, a);
    PastGrows(cfg, h, n, a);
    Election.ActionKeepsInv(cfg, c, h.ballots, a);
    ActorLogOk(cfg, c, h, n, a);
    NewMessagesLogOk(cfg, h, n, a);
    TermRises(cfg, n, a);
    assert NodeOk(cfg, h'.ballots, c'.nodes[a.i]);
    NodesOk(cfg, c, h, n, NewNode(cfg, n, a), h');
    MessagesOk(cfg, c.net, h, NewMessages(cfg, n, a), h');
    RecordOk(cfg, c, h, n, a, c');
    SurvivalOk(cfg, c, h, n, a, c');
  }
}
