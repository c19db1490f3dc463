/** Leader completeness: why a new leader holds everything earlier terms may have committed. */
module Completeness {
  import opened Proto
  import opened NodeSpec
  import opened Cluster
  import opened Election
  import opened History
  import LogMatching
  import Quorum

  // ---------------------------------------------------------------- growth of the past

  ghost predicate ReignsGrow(r: map<Term, Reign>, r': map<Term, Reign>) {
    forall t | t in r ::
      t in r' && r'[t].leader == r[t].leader && Agree(r[t].log, r'[t].log, |r[t].log|)
  }

  ghost predicate Grows(h: Past, h': Past) {
    && Extends(h.ballots, h'.ballots)
    && (forall s | s in h.cands :: s in h'.cands && h'.cands[s] == h.cands[s])
    && ReignsGrow(h.reigns, h'.reigns)
    && (forall s | s in h.acked :: s in h'.acked && h.acked[s] <= h'.acked[s])
  }

  /** Terms only rise, and only acknowledgements of a node's current term change. */
  ghost predicate Evolves(cfg: Config, c: State, h: Past, c': State, h': Past) {
    && Grows(h, h')
    && (forall j | j in cfg.voters :: j in c.nodes && j in c'.nodes && c.nodes[j].term <= c'.nodes[j].term)
    && (forall s | s in h'.acked && s.node in cfg.voters ::
          || (s in h.acked && h'.acked[s] == h.acked[s])
          || (s.node in c.nodes && s.term == c.nodes[s.node].term))
  }

  lemma RootedGrows(r: map<Term, Reign>, r': map<Term, Reign>, log: seq<Entry>, t: Term)
    requires ReignsGrow(r, r') && Rooted(r, log, t)
    ensures Rooted(r', log, t)
  {
    forall i | 0 <= i < |log| ensures Agree(log, r'[log[i].term].log, i + 1) {
      assert Agree(log, r[log[i].term].log, i + 1);
    }
  }

  lemma RootedLater(r: map<Term, Reign>, log: seq<Entry>, t: Term, t': Term)
    requires Rooted(r, log, t) && t <= t'
    ensures Rooted(r, log, t')
  {
  }

  lemma CommittedGrows(voters: set<Id>, h: Past, h': Past, t: Term, k: nat)
    requires Grows(h, h') && Committed(voters, h, t, k)
    ensures Committed(voters, h', t, k)
  {
    Quorum.SubsetSize(Ackers(voters, h, t, k), Ackers(voters, h', t, k));
    if k > 0 {
      assert h.reigns[t].log[k - 1] == h'.reigns[t].log[k - 1];
    }
  }

  lemma CommitWitness(voters: set<Id>, h: Past, t: Term, log: seq<Entry>, k: nat) returns (u: Term, l: nat)
    requires CommitOk(voters, h, t, log, k)
    ensures u <= t && k <= l && Committed(voters, h, u, l) && Agree(log, h.reigns[u].log, k)
  {
    u, l :| u <= t && k <= l && Committed(voters, h, u, l) && Agree(log, h.reigns[u].log, k);
  }

  lemma CommitOkGrows(voters: set<Id>, h: Past, h': Past, t: Term, t': Term, log: seq<Entry>, k: nat)
    requires Grows(h, h') && t <= t' && CommitOk(voters, h, t, log, k)
    ensures CommitOk(voters, h', t', log, k)
  {
    var u, l := CommitWitness(voters, h, t, log, k);
    CommittedGrows(voters, h, h', u, l);
    assert Agree(log, h'.reigns[u].log, k);
  }

  /** A commit index carries over to any log that agrees that far, and to lower indexes. */
  lemma CommitOkMoves(voters: set<Id>, h: Past, t: Term, log: seq<Entry>, k: nat, log': seq<Entry>, k': nat)
    requires CommitOk(voters, h, t, log, k) && k' <= k && Agree(log, log', k')
    ensures CommitOk(voters, h, t, log', k')
  {
    var u, l := CommitWitness(voters, h, t, log, k);
    assert k' <= l && Agree(log', h.reigns[u].log, k');
  }

  lemma BlockedStays(cfg: Config, c: State, h: Past, c': State, h': Past, t: Term, k: nat)
    requires Evolves(cfg, c, h, c', h') && Blocked(cfg.voters, c, h, t, k)
    ensures Blocked(cfg.voters, c', h', t, k)
  {
    var b, b' := Blockers(cfg.voters, c, h, t, k), Blockers(cfg.voters, c', h', t, k);
    forall j | j in b ensures j in b' {
      assert Acked(h', j, t) == Acked(h, j, t);
    }
    Quorum.MoreBlocks(cfg.voters, b, b');
  }

  lemma SurvivesStays(cfg: Config, c: State, h: Past, c': State, h': Past, t: Term, k: nat, log: seq<Entry>)
    requires Evolves(cfg, c, h, c', h') && Survives(cfg.voters, c, h, t, k, log)
    ensures Survives(cfg.voters, c', h', t, k, log)
  {
    if Blocked(cfg.voters, c, h, t, k) {
      BlockedStays(cfg, c, h, c', h', t, k);
    }
  }

  // ---------------------------------------------------------------- committed and blocked exclude each other

  lemma CommittedNotBlocked(cfg: Config, c: State, h: Past, t: Term, k: nat)
    requires Committed(cfg.voters, h, t, k)
    ensures !Blocked(cfg.voters, c, h, t, k)
  {
    if Blocked(cfg.voters, c, h, t, k) {
      Quorum.SubsetSize(Ackers(cfg.voters, h, t, k), cfg.voters - Blockers(cfg.voters, c, h, t, k));
    }
  }

  /** What was committed in term t is in the log of every leader of a later term. */
  lemma CommittedInLaterReigns(cfg: Config, c: State, h: Past, t: Term, k: nat, u: Term)
    requires Complete(cfg, c, h) && Committed(cfg.voters, h, t, k) && u in h.reigns && t <= u
    ensures Agree(h.reigns[t].log, h.reigns[u].log, k)
  {
    if t < u && k > 0 {
      CommittedNotBlocked(cfg, c, h, t, k);
      assert Survives(cfg.voters, c, h, t, k, h.reigns[u].log);
    }
  }

  /** Two committed prefixes never contradict each other. */
  lemma CommitsAgree(cfg: Config, c: State, h: Past, t: Term, a: seq<Entry>, k: nat, u: Term, b: seq<Entry>, l: nat)
    requires Complete(cfg, c, h)
    requires CommitOk(cfg.voters, h, t, a, k) && CommitOk(cfg.voters, h, u, b, l)
    ensures Agree(a, b, Min(k, l))
  {
    var t1, k1 := CommitWitness(cfg.voters, h, t, a, k);
    var u1, l1 := CommitWitness(cfg.voters, h, u, b, l);
    if t1 <= u1 {
      CommittedInLaterReigns(cfg, c, h, t1, k1, u1);
    } else {
      CommittedInLaterReigns(cfg, c, h, u1, l1, t1);
    }
  }

  /** A node's committed prefix is in the log of its term's leader. */
  lemma CommitInLeaderLog(cfg: Config, c: State, h: Past, t: Term, log: seq<Entry>, k: nat)
    requires Complete(cfg, c, h) && CommitOk(cfg.voters, h, t, log, k) && t in h.reigns
    ensures Agree(h.reigns[t].log, log, k)
  {
    var u, l := CommitWitness(cfg.voters, h, t, log, k);
    CommittedInLaterReigns(cfg, c, h, u, l, t);
  }

  // ---------------------------------------------------------------- a new leader

  /** Once term u has a leader, what term t has not had acknowledged yet can no longer commit there. */
  lemma ElectionBlocks(cfg: Config, c: State, h: Past, t: Term, u: Term, k: nat)
    requires !Exposed(cfg) && Election.Inv(cfg, c, h.ballots)
    requires u in h.reigns && t < u && u != BOOT_TERM && ReignOk(cfg, h, u)
    requires forall j | j in cfg.voters && c.nodes[j].term > t :: Acked(h, j, t) < k
    ensures Blocked(cfg.voters, c, h, t, k)
  {
    var i := h.reigns[u].leader;
    var s := Electors(cfg, i, Supporters(cfg.voters, h.ballots, u, i));
    forall j | j in s ensures j in Blockers(cfg.voters, c, h, t, k) {
      assert NodeOk(cfg, h.ballots, c.nodes[j]);
      assert Slot(j, u) in h.ballots;
    }
    ElectorsBlock(cfg, c, h, i, Supporters(cfg.voters, h.ballots, u, i), t, k);
  }

  /** Whose votes a leader certainly had: a majority's, or its own if it may have counted pre-votes. */
  function Electors(cfg: Config, i: Id, majority: set<Id>): set<Id> {
    if Strict(cfg, i) then majority else {i}
  }

  lemma ElectorsBlock(cfg: Config, c: State, h: Past, i: Id, majority: set<Id>, t: Term, k: nat)
    requires cfg.Valid() && !Exposed(cfg) && i in cfg.voters
    requires Strict(cfg, i) ==> Quorum.IsQuorum(cfg.voters, majority)
    requires Electors(cfg, i, majority) <= Blockers(cfg.voters, c, h, t, k)
    ensures Blocked(cfg.voters, c, h, t, k)
  {
    hide Blockers;
    if Strict(cfg, i) {
      Quorum.MajorityBlocks(cfg.voters, majority);
    } else {
      Quorum.OneOfTwoBlocks(cfg.voters, i);
    }
    Quorum.MoreBlocks(cfg.voters, Electors(cfg, i, majority), Blockers(cfg.voters, c, h, t, k));
  }

  lemma {:induction false} UpToDateHolds(cfg: Config, c: State, h: Past, t: Term, k: nat,
                                         v: seq<Entry>, w: seq<Entry>, last: Term)
    requires forall u | u in h.reigns :: ReignOk(cfg, h, u)
    requires Complete(cfg, c, h) && t in h.reigns && Pivot(h.reigns[t].log, t, k)
    requires Rooted(h.reigns, v, last) && Rooted(h.reigns, w, last)
    requires Agree(h.reigns[t].log, v, k) && UpToDate(v, |w|, LastTerm(w))
    ensures Survives(cfg.voters, c, h, t, k, w)
  {
    var r := h.reigns;
    var tv, tw := LastTerm(v), LastTerm(w);
    assert v[k - 1] == r[t].log[k - 1];
    assert ReignOk(cfg, h, v[|v| - 1].term);
    LogMatching.TermsGrow(r, v, last, k - 1, |v| - 1);
    assert t <= tv <= tw && |w| > 0;
    assert Agree(w, r[tw].log, |w|);
    if tw == tv {
      assert Agree(v, r[tv].log, |v|);
    } else {
      assert ReignOk(cfg, h, t) && ReignOk(cfg, h, tw);
      assert Survives(cfg.voters, c, h, t, k, r[tw].log);
      assert r[tw].log[|w| - 1].term == tw;
    }
  }

  /** The case of a voter that acknowledged index k of term t before it voted. */
  lemma AckerConvinces(cfg: Config, c: State, h: Past, j: Id, n: Node, t: Term, k: nat)
    requires PastOk(cfg, c, h) && Complete(cfg, c, h) && VotesKept(cfg, c, h)
    requires VotedFor(h.ballots, j, n.term, n.id) && Slot(n.id, n.term) in h.cands
    requires h.cands[Slot(n.id, n.term)] == n.log
    requires t in h.reigns && t < n.term && Pivot(h.reigns[t].log, t, k) && k <= Acked(h, j, t)
    ensures Survives(cfg.voters, c, h, t, k, n.log)
  {
    var s := Slot(j, n.term);
    assert BallotHistoryOk(cfg, h, s) && CandOk(h, Slot(n.id, n.term));
    var v := h.ballots[s].log;
    assert Survives(cfg.voters, c, h, t, k, h.ballots[s].log);
    if Agree(h.reigns[t].log, v, k) {
      UpToDateHolds(cfg, c, h, t, k, v, n.log, n.term - 1);
    }
  }

  /** The winner of an election holds what an earlier term may still commit. */
  lemma WinnerHolds(cfg: Config, c: State, h: Past, i: Id, t: Term, k: nat)
    requires !Exposed(cfg) && Election.Inv(cfg, c, h.ballots) && PastOk(cfg, c, h)
    requires Complete(cfg, c, h) && VotesKept(cfg, c, h)
    requires i in cfg.voters && NodeLogOk(cfg, h, c.nodes[i])
    requires var n := c.nodes[i];
             n.role.Candidate? && |n.granted| == Quorum.Size(cfg.voters) && t < n.term
    requires t in h.reigns && Pivot(h.reigns[t].log, t, k)
    ensures Survives(cfg.voters, c, h, t, k, c.nodes[i].log)
  {
    var n := c.nodes[i];
    assert Slot(i, n.term) in h.cands && h.cands[Slot(i, n.term)] == n.log;
    hide PastOk, Complete, VotesKept, Survives, NodeLogOk;
    ElectorsVoted(cfg, c, h, i);
    var s := Electors(cfg, i, n.granted);
    if j :| j in s && Acked(h, j, t) >= k {
      AckerConvinces(cfg, c, h, j, n, t, k);
    } else {
      assert Blocked(cfg.voters, c, h, t, k) by {
        ElectorsBlock(cfg, c, h, i, n.granted, t, k);
      }
      BlockedSurvives(cfg.voters, c, h, t, k, n.log);
    }
  }

  lemma ElectorsVoted(cfg: Config, c: State, h: Past, i: Id)
    requires Election.Inv(cfg, c, h.ballots) && i in cfg.voters
    requires c.nodes[i].role.Candidate? && |c.nodes[i].granted| == Quorum.Size(cfg.voters)
    ensures Quorum.IsQuorum(cfg.voters, c.nodes[i].granted)
    ensures forall j | j in Electors(cfg, i, c.nodes[i].granted) ::
      && j in cfg.voters && VotedFor(h.ballots, j, c.nodes[i].term, i) && c.nodes[j].term >= c.nodes[i].term
  {
    var n := c.nodes[i];
    assert NodeOk(cfg, h.ballots, n);
    forall j | j in Electors(cfg, i, n.granted)
      ensures j in cfg.voters && VotedFor(h.ballots, j, n.term, i) && c.nodes[j].term >= n.term
    {
      assert NodeOk(cfg, h.ballots, c.nodes[j]);
    }
  }

  lemma BlockedSurvives(voters: set<Id>, c: State, h: Past, t: Term, k: nat, log: seq<Entry>)
    requires t in h.reigns && Blocked(voters, c, h, t, k)
    ensures Survives(voters, c, h, t, k, log)
  {
  }
}
