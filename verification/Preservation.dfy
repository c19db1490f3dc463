/** Every action keeps the history invariant: nodes, messages and the record itself. */
module Preservation {
  import opened Proto
  import opened NodeSpec
  import opened Cluster
  import opened Actions
  import opened Election
  import opened History
  import opened Completeness
  import LogMatching
  import Quorum

  /** The log a leader has after an action that lengthens it. */
  function LeaderLog(n: Node, a: Action): seq<Entry> {
    if a.Win? then Crowned(n).log
    else if a.LeadAppend? then Lengthened(n, a.entries).log
    else n.log
  }

  /** How far an action makes the node acknowledge its term's leader. */
  function NewAck(n: Node, a: Action): nat {
    if a.Win? || a.LeadAppend? then |LeaderLog(n, a)|
    else if a.Accept? && a.m.App? then a.m.index + |a.m.entries|
    else n.commit
  }

  function NextPast(n: Node, a: Action, h: Past): Past {
    Past(
      Cast(n, a, h.ballots),
      if a.Stand? then h.cands[Slot(n.id, n.term + 1) := n.log] else h.cands,
      if a.Win? || a.LeadAppend? then h.reigns[n.term := Reign(n.id, LeaderLog(n, a))] else h.reigns,
      if a.Win? || a.LeadAppend? || a.Accept? || a.AckCommitted?
      then h.acked[Slot(n.id, n.term) := Max(Acked(h, n.id, n.term), NewAck(n, a))] else h.acked)
  }

  // ---------------------------------------------------------------- the record grows

  /** A term is won at most once. */
  lemma FreshTerm(cfg: Config, c: State, h: Past, i: Id)
    requires !Exposed(cfg) && Election.Inv(cfg, c, h.ballots) && PastOk(cfg, c, h) && i in cfg.voters
    requires NodeLogOk(cfg, h, c.nodes[i])
    requires c.nodes[i].role.Candidate? && |c.nodes[i].granted| == Quorum.Size(cfg.voters)
    ensures c.nodes[i].term !in h.reigns && c.nodes[i].term > BOOT_TERM
  {
    var n := c.nodes[i];
    assert NodeOk(cfg, h.ballots, n);
    assert CandOk(h, Slot(i, n.term));
    if n.term in h.reigns {
      assert ReignOk(cfg, h, n.term);
      if Strict(cfg, i) {
        Quorum.SubsetSize(n.granted, Supporters(cfg.voters, h.ballots, n.term, i));
      }
      OneWinner(cfg, h.ballots, n.term, i, h.reigns[n.term].leader);
      assert false;
    }
  }

  lemma LeaderLogExtends(n: Node, a: Action)
    ensures Agree(n.log, LeaderLog(n, a), |n.log|)
  {
  }

  /** Where the record may change when node i acts. */
  ghost predicate ChangedBy(i: Id, t: Term, h: Past, h': Past) {
    && (forall s | s in h'.ballots && s !in h.ballots :: s.node == i)
    && (forall s | s in h'.cands && s !in h.cands :: s.node == i)
    && (forall u | u in h'.reigns ::
          || (u in h.reigns && h'.reigns[u] == h.reigns[u])
          || (u == t && h'.reigns[u].leader == i && (u in h.reigns ==> h.reigns[u].leader == i)))
    && (forall s | s in h'.acked :: (s in h.acked && h'.acked[s] == h.acked[s]) || s == Slot(i, t))
  }

  /** What the record must say about a node before it acts. */
  ghost predicate Ready(h: Past, n: Node, a: Action) {
    && BallotOk(h.ballots, n)
    && Slot(n.id, n.term + 1) !in h.cands
    && (a.Win? ==> n.term !in h.reigns)
    && (a.LeadAppend? ==> n.term in h.reigns && h.reigns[n.term] == Reign(n.id, n.log))
  }

  lemma IsReady(cfg: Config, c: State, h: Past, n: Node, a: Action)
    requires !Exposed(cfg) && Election.Inv(cfg, c, h.ballots) && PastOk(cfg, c, h)
    requires n.id in cfg.voters && c.nodes[n.id] == n && NodeOk(cfg, h.ballots, n) && NodeLogOk(cfg, h, n)
    requires Guard(cfg, n, a)
    ensures Ready(h, n, a)
  {
    if a.Win? {
      FreshTerm(cfg, c, h, n.id);
    }
  }

  lemma PastGrows(cfg: Config, h: Past, n: Node, a: Action)
    requires Ready(h, n, a)
    ensures Grows(h, NextPast(n, a, h)) && ChangedBy(n.id, n.term, h, NextPast(n, a, h))
  {
    CastExtends(cfg, n, a, h.ballots);
    LeaderLogExtends(n, a);
  }

  // ---------------------------------------------------------------- followers

  /** n' is n after taking over entries from the leader of its term: nothing it shared with the leader is lost. */
  ghost predicate Follows(voters: set<Id>, h: Past, n: Node, n': Node) {
    && n'.id == n.id && n'.term == n.term && n.term in h.reigns
    && Rooted(h.reigns, n'.log, n.term)
    && (forall k: nat {:trigger Agree(h.reigns[n.term].log, n'.log, k)} ::
          Agree(h.reigns[n.term].log, n.log, k) ==> Agree(h.reigns[n.term].log, n'.log, k))
    && CommitOk(voters, h, n.term, n'.log, n'.commit)
  }

  lemma AcceptFollows(cfg: Config, c: State, h: Past, n: Node, m: Message)
    requires PastOk(cfg, c, h) && Complete(cfg, c, h) && NodeLogOk(cfg, h, n)
    requires m.App? && m.term == n.term && MsgLogOk(cfg, h, m) && Accepts(n, m)
    ensures Follows(cfg.voters, h, n, Accepted(n, m))
    ensures Agree(h.reigns[n.term].log, Accepted(n, m).log, m.index + |m.entries|)
    ensures !LogFatal(n, m)
  {
    var lead, t, n' := h.reigns[n.term].log, n.term, Accepted(n, m);
    assert ReignOk(cfg, h, t);
    assert LogMatching.SliceOf(lead, m.index, m.entries);
    LogMatching.MergeAgrees(h.reigns, n.log, lead, t, m.index, m.entries);
    LogMatching.MergeRooted(h.reigns, n.log, lead, t, m.index, m.entries);
    forall k: nat | Agree(lead, n.log, k) ensures Agree(lead, n'.log, k) {
      LogMatching.MergeKeeps(h.reigns, n.log, lead, t, m.index, m.entries, k);
    }
    CommitInLeaderLog(cfg, c, h, t, n.log, n.commit);
    LogMatching.MergeKeeps(h.reigns, n.log, lead, t, m.index, m.entries, n.commit);
    LogMatching.ConflictAgainstLeader(h.reigns, n.log, lead, t, m.index, m.entries);
    AcceptCommits(cfg.voters, h, n, m);
  }

  lemma AcceptCommits(voters: set<Id>, h: Past, n: Node, m: Message)
    requires m.App? && n.term in h.reigns && CommitOk(voters, h, n.term, n.log, n.commit)
    requires CommitOk(voters, h, n.term, h.reigns[n.term].log, m.commit)
    requires Agree(h.reigns[n.term].log, n.log, n.commit)
    requires Agree(h.reigns[n.term].log, Accepted(n, m).log, n.commit)
    requires Agree(h.reigns[n.term].log, Accepted(n, m).log, m.index + |m.entries|)
    ensures CommitOk(voters, h, n.term, Accepted(n, m).log, Accepted(n, m).commit)
  {
    var n' := Accepted(n, m);
    if n'.commit == n.commit {
      CommitOkMoves(voters, h, n.term, n.log, n.commit, n'.log, n.commit);
    } else {
      CommitOkMoves(voters, h, n.term, h.reigns[n.term].log, m.commit, n'.log, n'.commit);
    }
  }

  lemma AdvanceFollows(cfg: Config, c: State, h: Past, n: Node, m: Message)
    requires PastOk(cfg, c, h) && NodeLogOk(cfg, h, n) && n.id in c.nodes && c.nodes[n.id] == n
    requires m.Heartbeat? && m.term == n.term && m.to == n.id && MsgLogOk(cfg, h, m)
    ensures Follows(cfg.voters, h, n, HandleHeartbeat(n, m).0)
    ensures !LogFatal(n, m)
  {
    var lead := h.reigns[n.term].log;
    if Slot(n.id, n.term) in h.acked {
      assert AckOk(cfg, c, h, Slot(n.id, n.term));
    }
    assert Agree(lead, n.log, m.commit);
    CommitOkMoves(cfg.voters, h, n.term, lead, m.commit, n.log, m.commit);
  }

  lemma InstallFollows(cfg: Config, c: State, h: Past, n: Node, m: Message)
    requires PastOk(cfg, c, h) && NodeLogOk(cfg, h, n)
    requires m.Snap? && m.term == n.term && MsgLogOk(cfg, h, m)
    ensures Follows(cfg.voters, h, n, HandleSnapshot(n, m).0)
    ensures !LogFatal(n, m)
  {
    var lead, t, n' := h.reigns[n.term].log, n.term, HandleSnapshot(n, m).0;
    assert ReignOk(cfg, h, t);
    assert lead[m.index - 1].term >= 1;
    if m.index > n.commit {
      if TermAt(n.log, m.index) == m.logTerm {
        LogMatching.Matching(h.reigns, lead, t, n.log, t, m.index);
        CommitOkMoves(cfg.voters, h, t, lead, m.index, n.log, m.index);
      } else {
        LogMatching.PrefixRooted(h.reigns, lead, m.prefix, t);
        CommitOkMoves(cfg.voters, h, t, lead, m.index, m.prefix, m.index);
        forall k: nat | Agree(lead, n.log, k) ensures Agree(lead, n'.log, k) {
          assert k < m.index;
        }
      }
    }
  }

  // ---------------------------------------------------------------- the acting node

  /** Nobody has led a term it has not reached. */
  lemma NoFutureReign(cfg: Config, c: State, h: Past, i: Id)
    requires PastOk(cfg, c, h) && i in cfg.voters && i in c.nodes && NodeLogOk(cfg, h, c.nodes[i])
    requires c.nodes[i].id == i && cfg.Valid()
    ensures forall t | t in h.reigns && t != BOOT_TERM && h.reigns[t].leader == i :: t <= c.nodes[i].term
  {
    forall t | t in h.reigns && t != BOOT_TERM && h.reigns[t].leader == i ensures t <= c.nodes[i].term {
      assert ReignOk(cfg, h, t);
      assert BallotHistoryOk(cfg, h, Slot(i, t));
      assert Slot(i, t) in h.cands;
    }
  }

  /** Actions that leave the node's log and the record of logs alone. */
  predicate Quiet(a: Action) {
    || a.StepDown? || a.Follow? || a.Emit? || a.Grant? || a.PreStand? || a.Tally?
    || a.Recover? || a.LeadMatch? || a.Stand? || a.TurnDown?
  }

  /** What a quiet action may do to the node and to the record. */
  ghost predicate QuietChange(cfg: Config, h: Past, n: Node, h': Past, n': Node) {
    && h'.reigns == h.reigns && h'.acked == h.acked
    && n'.id == n.id && n'.log == n.log && n.term <= n'.term && n'.commit <= n.commit
    && (forall s | s in h'.cands && s !in h.cands :: s.term <= n'.term)
    && (n'.role.Candidate? ==>
          || (n.role.Candidate? && n'.term == n.term)
          || (&& Slot(n.id, n'.term) in h'.cands && h'.cands[Slot(n.id, n'.term)] == n.log
              && (n'.term in h.reigns ==> h.reigns[n'.term].leader != n.id)))
    && (n'.role.Leader? ==>
          && n.role.Leader? && n'.term == n.term
          && forall j | j in cfg.voters :: Quorum.Known(n'.matched, j) <= Acked(h, j, n.term))
  }

  lemma QuietNode(cfg: Config, h: Past, n: Node, h': Past, n': Node)
    requires NodeLogOk(cfg, h, n) && Grows(h, h') && QuietChange(cfg, h, n, h', n')
    ensures NodeLogOk(cfg, h', n')
  {
    RootedLater(h.reigns, n.log, n.term, n'.term);
    CommitOkMoves(cfg.voters, h, n.term, n.log, n.commit, n.log, n'.commit);
    CommitOkGrows(cfg.voters, h, h', n.term, n'.term, n.log, n'.commit);
  }

  lemma QuietEffect(cfg: Config, h: Past, n: Node, a: Action)
    requires Guard(cfg, n, a) && Quiet(a)
    requires n.role.Leader? ==> forall j | j in cfg.voters :: Quorum.Known(n.matched, j) <= Acked(h, j, n.term)
    requires a.LeadMatch? ==> MsgLogOk(cfg, h, a.m)
    requires a.Stand? && n.term + 1 in h.reigns ==> h.reigns[n.term + 1].leader != n.id
    ensures QuietChange(cfg, h, n, NextPast(n, a, h), NewNode(cfg, n, a))
  {
  }

  lemma QuietActor(cfg: Config, h: Past, n: Node, a: Action)
    requires NodeLogOk(cfg, h, n) && Guard(cfg, n, a) && Quiet(a) && Ready(h, n, a)
    requires a.LeadMatch? ==> MsgLogOk(cfg, h, a.m)
    requires a.Stand? && n.term + 1 in h.reigns ==> h.reigns[n.term + 1].leader != n.id
    ensures NodeLogOk(cfg, NextPast(n, a, h), NewNode(cfg, n, a))
  {
    PastGrows(cfg, h, n, a);
    QuietEffect(cfg, h, n, a);
    QuietNode(cfg, h, n, NextPast(n, a, h), NewNode(cfg, n, a));
  }

  lemma LeadCommitActor(cfg: Config, h: Past, n: Node, k: nat)
    requires NodeLogOk(cfg, h, n) && Guard(cfg, n, LeadCommit(n.id, k))
    ensures NodeLogOk(cfg, h, n.(commit := k))
  {
    assert LeaderOk(cfg, h, n) && 1 <= k <= |n.log| by {
      assert n.term >= 1;
    }
    Quorum.SubsetSize(Quorum.Backers(cfg.voters, n.matched, k), Ackers(cfg.voters, h, n.term, k));
    assert Committed(cfg.voters, h, n.term, k);
    assert Agree(n.log, h.reigns[n.term].log, k);
  }

  lemma FollowActor(cfg: Config, h: Past, n: Node, n': Node, h': Past)
    requires NodeLogOk(cfg, h, n) && Follows(cfg.voters, h, n, n') && n'.role.Follower?
    requires Grows(h, h') && h'.cands == h.cands && h'.reigns == h.reigns
    ensures NodeLogOk(cfg, h', n')
  {
    CommitOkGrows(cfg.voters, h, h', n.term, n.term, n'.log, n'.commit);
  }

  lemma StampRooted(r: map<Term, Reign>, r': map<Term, Reign>, log: seq<Entry>, t: Term, entries: seq<Entry>)
    requires ReignsGrow(r, r') && Rooted(r, log, t) && t >= 1 && t in r'
    requires r'[t].log == log + Stamp(t, |log|, entries)
    ensures Rooted(r', log + Stamp(t, |log|, entries), t)
  {
    RootedGrows(r, r', log, t);
    var l := log + Stamp(t, |log|, entries);
    forall i | 0 <= i < |l|
      ensures l[i].index == i + 1 && 1 <= l[i].term <= t && l[i].term in r' && Agree(l, r'[l[i].term].log, i + 1)
    {
      if i < |log| {
        assert l[i] == log[i] && Agree(log, r'[log[i].term].log, i + 1);
      }
    }
  }

  lemma LeadActor(cfg: Config, h: Past, n: Node, a: Action)
    requires NodeLogOk(cfg, h, n) && Guard(cfg, n, a) && (a.Win? || a.LeadAppend?) && Ready(h, n, a)
    requires n.id in cfg.voters && n.term != BOOT_TERM && Acked(h, n.id, n.term) <= |n.log|
    ensures NodeLogOk(cfg, NextPast(n, a, h), NewNode(cfg, n, a))
  {
    var h', n' := NextPast(n, a, h), NewNode(cfg, n, a);
    PastGrows(cfg, h, n, a);
    StampRooted(h.reigns, h'.reigns, n.log, n.term, if a.Win? then [NOOP] else a.entries);
    CommitOkMoves(cfg.voters, h, n.term, n.log, n.commit, n'.log, n.commit);
    CommitOkGrows(cfg.voters, h, h', n.term, n.term, n'.log, n.commit);
    NewLeaderOk(cfg, h, n, a);
  }

  lemma NewLeaderOk(cfg: Config, h: Past, n: Node, a: Action)
    requires Guard(cfg, n, a) && (a.Win? || a.LeadAppend?)
    requires n.id in cfg.voters && n.term != BOOT_TERM && Acked(h, n.id, n.term) <= |n.log|
    requires n.role.Leader? ==> LeaderOk(cfg, h, n)
    ensures LeaderOk(cfg, NextPast(n, a, h), NewNode(cfg, n, a))
  {
    var h', n' := NextPast(n, a, h), NewNode(cfg, n, a);
    LeaderLogExtends(n, a);
    assert n'.log == LeaderLog(n, a);
    assert Acked(h', n.id, n.term) == |n'.log|;
    forall j | j in cfg.voters ensures Quorum.Known(n'.matched, j) <= Acked(h', j, n.term) {
      if j != n.id {
        assert Acked(h', j, n.term) == Acked(h, j, n.term);
      }
    }
  }

  /** Everything the acting node's proof uses. */
  ghost predicate Scene(cfg: Config, c: State, h: Past, n: Node, a: Action) {
    && cfg.Valid() && n.id in cfg.voters && n.id in c.nodes && c.nodes[n.id] == n && a.i == n.id
    && Guard(cfg, n, a)
    && NodeOk(cfg, h.ballots, n) && NodeLogOk(cfg, h, n) && Ready(h, n, a)
    && PastOk(cfg, c, h) && Complete(cfg, c, h)
    && (forall m | m in Consumed(a) :: MsgLogOk(cfg, h, m) && MsgOk(cfg, h.ballots, m))
  }

  lemma SetScene(cfg: Config, c: State, h: Past, a: Action)
    requires History.Inv(cfg, c, h) && Enabled(cfg, c, a)
    ensures Scene(cfg, c, h, c.nodes[a.i], a)
  {
    assert NodeOk(cfg, h.ballots, c.nodes[a.i]) && NodeLogOk(cfg, h, c.nodes[a.i]);
    IsReady(cfg, c, h, c.nodes[a.i], a);
  }

  lemma ActorFollows(cfg: Config, c: State, h: Past, n: Node, a: Action)
    requires Scene(cfg, c, h, n, a) && (a.Accept? || a.AckCommitted? || a.Advance? || a.Install?)
    ensures Follows(cfg.voters, h, n, NewNode(cfg, n, a))
  {
    assert a.m in Consumed(a);
    if a.Accept? {
      AcceptFollows(cfg, c, h, n, a.m);
    } else if a.Advance? {
      AdvanceFollows(cfg, c, h, n, a.m);
    } else if a.Install? {
      InstallFollows(cfg, c, h, n, a.m);
    }
  }

  lemma AckBound(cfg: Config, c: State, h: Past, n: Node)
    requires PastOk(cfg, c, h) && n.id in c.nodes && c.nodes[n.id] == n
    ensures Acked(h, n.id, n.term) <= |n.log|
    ensures n.term in h.reigns ==> Agree(h.reigns[n.term].log, n.log, Acked(h, n.id, n.term))
  {
    if Slot(n.id, n.term) in h.acked {
      assert AckOk(cfg, c, h, Slot(n.id, n.term));
    }
  }

  lemma QuietOrLead(cfg: Config, c: State, h: Past, n: Node, a: Action)
    requires Scene(cfg, c, h, n, a) && (Quiet(a) || a.Win? || a.LeadAppend?)
    ensures NodeLogOk(cfg, NextPast(n, a, h), NewNode(cfg, n, a))
  {
    if Quiet(a) {
      NoFutureReign(cfg, c, h, n.id);
      assert a.LeadMatch? ==> a.m in Consumed(a);
      QuietActor(cfg, h, n, a);
    } else {
      AckBound(cfg, c, h, n);
      if a.Win? {
        assert CandOk(h, Slot(n.id, n.term));
      }
      LeadActor(cfg, h, n, a);
    }
  }

  lemma ActorLogOk(cfg: Config, c: State, h: Past, n: Node, a: Action)
    requires Scene(cfg, c, h, n, a)
    ensures NodeLogOk(cfg, NextPast(n, a, h), NewNode(cfg, n, a))
  {
    if Quiet(a) || a.Win? || a.LeadAppend? {
      QuietOrLead(cfg, c, h, n, a);
    } else if a.LeadCommit? {
      LeadCommitActor(cfg, h, n, a.k);
    } else {
      FollowerLogOk(cfg, c, h, n, a);
    }
  }

  lemma FollowerLogOk(cfg: Config, c: State, h: Past, n: Node, a: Action)
    requires Scene(cfg, c, h, n, a) && (a.Accept? || a.AckCommitted? || a.Advance? || a.Install?)
    ensures NodeLogOk(cfg, NextPast(n, a, h), NewNode(cfg, n, a))
  {
    ActorFollows(cfg, c, h, n, a);
    PastGrows(cfg, h, n, a);
    FollowerEffect(cfg, h, n, a);
    FollowActor(cfg, h, n, NewNode(cfg, n, a), NextPast(n, a, h));
  }

  lemma FollowerEffect(cfg: Config, h: Past, n: Node, a: Action)
    requires Guard(cfg, n, a) && (a.Accept? || a.AckCommitted? || a.Advance? || a.Install?)
    ensures NewNode(cfg, n, a).role.Follower?
    ensures NextPast(n, a, h).cands == h.cands && NextPast(n, a, h).reigns == h.reigns
  {
  }

  // ---------------------------------------------------------------- bystanders

  lemma BystanderLogOk(cfg: Config, h: Past, h': Past, n: Node, i: Id, t: Term)
    requires NodeLogOk(cfg, h, n) && n.id != i && Grows(h, h') && ChangedBy(i, t, h, h')
    ensures NodeLogOk(cfg, h', n)
  {
    RootedGrows(h.reigns, h'.reigns, n.log, n.term);
    CommitOkGrows(cfg.voters, h, h', n.term, n.term, n.log, n.commit);
    if n.role.Leader? {
      forall j ensures Acked(h, j, n.term) <= Acked(h', j, n.term) {
        assert Slot(j, n.term) in h.acked ==> Slot(j, n.term) in h'.acked;
      }
      assert Acked(h', n.id, n.term) == Acked(h, n.id, n.term);
    }
  }

  // ---------------------------------------------------------------- messages

  lemma MsgGrows(cfg: Config, h: Past, h': Past, m: Message)
    requires Grows(h, h') && MsgLogOk(cfg, h, m)
    ensures MsgLogOk(cfg, h', m)
  {
    if m.App? || m.Heartbeat? || m.Snap? {
      var t, log, log' := m.term, h.reigns[m.term].log, h'.reigns[m.term].log;
      var k := if m.Snap? then m.index else m.commit;
      CommitOkMoves(cfg.voters, h, t, log, k, log', k);
      CommitOkGrows(cfg.voters, h, h', t, t, log', k);
      if m.Heartbeat? {
        AckedGrows(h, h', m.to, m.term);
      }
    } else if m.AppResp? {
      AckedGrows(h, h', m.from, m.term);
    }
  }

  lemma AckedGrows(h: Past, h': Past, j: Id, t: Term)
    requires Grows(h, h')
    ensures Acked(h, j, t) <= Acked(h', j, t)
  {
  }

  lemma LeaderMessageOk(cfg: Config, h: Past, n: Node, m: Message)
    requires NodeLogOk(cfg, h, n) && n.role.Leader?
    requires LeaderMay(cfg.voters, n, m) || m in Heartbeats(cfg.voters, n)
    ensures MsgLogOk(cfg, h, m)
  {
    hide Rooted, Committed;
    if m.Snap? {
      CommitOkMoves(cfg.voters, h, n.term, n.log, n.commit, n.log, m.index);
    }
    if m.Heartbeat? {
      CommitOkMoves(cfg.voters, h, n.term, n.log, n.commit, n.log, m.commit);
    }
  }

  lemma NewMessagesLogOk(cfg: Config, h: Past, n: Node, a: Action)
    requires Guard(cfg, n, a) && NodeLogOk(cfg, h, n)
    ensures forall m | m in NewMessages(cfg, n, a) :: MsgLogOk(cfg, NextPast(n, a, h), m)
  {
    var h' := NextPast(n, a, h);
    if a.Emit? {
      forall m | m in a.out ensures MsgLogOk(cfg, h', m) {
        assert MayEmit(cfg, n, m);
        if n.role.Leader? && (LeaderMay(cfg.voters, n, m) || m in Heartbeats(cfg.voters, n)) {
          LeaderMessageOk(cfg, h, n, m);
        }
      }
    }
  }
}
