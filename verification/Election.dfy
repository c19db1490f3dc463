/**
 * One vote per node and term, and what a leader's office rests on. The invariant holds for every
 * configuration, with and without pre-vote and the response-type guard.
 */
module Election {
  import opened Proto
  import opened NodeSpec
  import opened Cluster
  import opened Actions
  import Quorum

  /** A node in one of its terms. */
  datatype Slot = Slot(node: Id, term: Term)

  /** A real vote: for whom, and the voter's log when it was cast. */
  datatype Ballot = Ballot(cand: Id, log: seq<Entry>)

  /** Every real vote cast so far. */
  type Ballots = map<Slot, Ballot>

  predicate VotedFor(b: Ballots, j: Id, term: Term, cand: Id) {
    Slot(j, term) in b && b[Slot(j, term)].cand == cand
  }

  function Supporters(voters: set<Id>, b: Ballots, term: Term, cand: Id): set<Id> {
    set j | j in voters && VotedFor(b, j, term, cand)
  }

  ghost predicate Elected(voters: set<Id>, b: Ballots, term: Term, cand: Id) {
    Quorum.IsQuorum(voters, Supporters(voters, b, term, cand))
  }

  /** Nodes whose tallies hold real votes only. */
  predicate Strict(cfg: Config, i: Id) {
    cfg.guarded || i !in cfg.preVote
  }

  /**
   * Configurations in which a pre-vote can take a vote's place and elect a second leader: not
   * guarded, and either three voters or more and some of them pre-vote, or two and both do.
   */
  predicate Exposed(cfg: Config) {
    && !cfg.guarded
    && ((|cfg.voters| >= 3 && cfg.preVote != {}) || (|cfg.voters| == 2 && cfg.preVote == cfg.voters))
  }

  /** What is known of the votes behind a leader: its own, and a majority's if it counts votes only. */
  ghost predicate Won(cfg: Config, b: Ballots, term: Term, i: Id) {
    VotedFor(b, i, term, i) && (Strict(cfg, i) ==> Elected(cfg.voters, b, term, i))
  }

  ghost predicate BallotOk(b: Ballots, n: Node) {
    && (n.vote != NONE ==> VotedFor(b, n.id, n.term, n.vote))
    && (n.vote == NONE ==> Slot(n.id, n.term) !in b)
    && (forall s | s in b && s.node == n.id :: s.term <= n.term)
  }

  ghost predicate RoleOk(cfg: Config, b: Ballots, n: Node) {
    && n.granted <= cfg.voters
    && (n.role.Candidate? || n.role.Leader? ==> n.vote == n.id)
    && (n.role.PreCandidate? ==> n.id in cfg.preVote)
    && (Strict(cfg, n.id) && n.role.Candidate? ==>
          forall j | j in n.granted :: VotedFor(b, j, n.term, n.id))
    && (Strict(cfg, n.id) && n.role.Leader? ==> Elected(cfg.voters, b, n.term, n.id))
  }

  ghost predicate NodeOk(cfg: Config, b: Ballots, n: Node) {
    n.term >= 1 && BallotOk(b, n) && RoleOk(cfg, b, n)
  }

  ghost predicate MsgOk(cfg: Config, b: Ballots, m: Message) {
    match m
    case App(_, _, term, _, _, _, _) => term >= 1
    case AppResp(from, _, term, _, _, _) => term >= 1 && from in cfg.voters
    case Vote(from, _, term, _, _, _) => term >= 1 && from in cfg.voters
    case PreVote(from, _, term, _, _) => term >= 1 && from in cfg.preVote
    case VoteResp(from, to, term, reject) =>
      term >= 1 && from in cfg.voters && (reject || VotedFor(b, from, term, to))
    case PreVoteResp(from, to, term, reject) =>
      term >= 1 && from in cfg.voters && (reject || to in cfg.preVote)
    case Heartbeat(_, _, term, _) => term >= 1
    case HeartbeatResp(_, _, term) => term >= 1
    case Snap(_, _, term, _, _, _) => term >= 1
    case TimeoutNow(_, _, term) => term >= 1
    case _ => true
  }

  ghost predicate Inv(cfg: Config, c: State, b: Ballots) {
    && WellFormed(cfg, c)
    && (forall i | i in cfg.voters :: NodeOk(cfg, b, c.nodes[i]))
    && (forall m | m in c.net :: MsgOk(cfg, b, m))
  }

  predicate Extends(b: Ballots, b': Ballots) {
    forall s | s in b :: s in b' && b'[s] == b[s]
  }

  /** The votes an action casts: a granted request, or a candidate's vote for itself. */
  function Cast(n: Node, a: Action, b: Ballots): Ballots {
    if a.Grant? && a.m.Vote? && n.vote == NONE then b[Slot(n.id, n.term) := Ballot(a.m.from, n.log)]
    else if a.Stand? then b[Slot(n.id, n.term + 1) := Ballot(n.id, n.log)]
    else b
  }

  lemma CastExtends(cfg: Config, n: Node, a: Action, b: Ballots)
    requires BallotOk(b, n)
    ensures Extends(b, Cast(n, a, b))
    ensures forall s | s in Cast(n, a, b) && s !in b :: s.node == n.id
  {
  }

  lemma ElectedStays(voters: set<Id>, b: Ballots, b': Ballots, term: Term, cand: Id)
    requires Extends(b, b') && Elected(voters, b, term, cand)
    ensures Elected(voters, b', term, cand)
  {
    Quorum.SubsetSize(Supporters(voters, b, term, cand), Supporters(voters, b', term, cand));
  }

  lemma WonStays(cfg: Config, b: Ballots, b': Ballots, term: Term, i: Id)
    requires Extends(b, b') && Won(cfg, b, term, i)
    ensures Won(cfg, b', term, i)
  {
    if Strict(cfg, i) {
      ElectedStays(cfg.voters, b, b', term, i);
    }
  }

  /** With two voters of which one needs its real votes, the other's vote for itself stands in its way. */
  lemma PairIsSafe(cfg: Config, b: Ballots, x: Id, y: Id, term: Term)
    requires |cfg.voters| == 2 && x in cfg.voters && y in cfg.voters
    requires VotedFor(b, x, term, x) && Elected(cfg.voters, b, term, y)
    ensures x == y
  {
    var s := Supporters(cfg.voters, b, term, y);
    assert |cfg.voters - {x}| == 1;
    if x !in s {
      Quorum.SubsetSize(s, cfg.voters - {x});
    }
  }

  /** Unless the configuration is exposed, a term is won by one node only. */
  lemma OneWinner(cfg: Config, b: Ballots, term: Term, i: Id, j: Id)
    requires cfg.Valid() && !Exposed(cfg) && i in cfg.voters && j in cfg.voters
    requires Won(cfg, b, term, i) && Won(cfg, b, term, j)
    ensures i == j
  {
    if Strict(cfg, i) && Strict(cfg, j) {
      var x := Quorum.Intersect(cfg.voters, Supporters(cfg.voters, b, term, i), Supporters(cfg.voters, b, term, j));
    } else if i != j {
      Quorum.SubsetSize({i, j}, cfg.voters);
      if !Strict(cfg, i) && !Strict(cfg, j) {
        Quorum.SubsetSize(cfg.voters - cfg.preVote, cfg.voters - {i, j});
      }
      if Strict(cfg, i) {
        PairIsSafe(cfg, b, j, i, term);
      } else {
        PairIsSafe(cfg, b, i, j, term);
      }
    }
  }

  lemma BystanderOk(cfg: Config, b: Ballots, b': Ballots, n: Node, i: Id)
    requires NodeOk(cfg, b, n) && Extends(b, b') && i != n.id
    requires forall s | s in b' && s !in b :: s.node == i
    ensures NodeOk(cfg, b', n)
  {
    if Strict(cfg, n.id) && n.role.Leader? {
      ElectedStays(cfg.voters, b, b', n.term, n.id);
    }
  }

  lemma ActorBallot(cfg: Config, n: Node, a: Action, b: Ballots)
    requires n.id in cfg.voters && Guard(cfg, n, a)
    requires cfg.Valid() && NodeOk(cfg, b, n) && (forall m | m in Consumed(a) :: MsgOk(cfg, b, m))
    ensures BallotOk(Cast(n, a, b), NewNode(cfg, n, a))
  {
    if a.Grant? {
      assert a.m in Consumed(a);
    }
  }

  lemma ActorRole(cfg: Config, n: Node, a: Action, b: Ballots)
    requires n.id in cfg.voters && Guard(cfg, n, a)
    requires cfg.Valid() && NodeOk(cfg, b, n) && (forall m | m in Consumed(a) :: MsgOk(cfg, b, m))
    ensures RoleOk(cfg, Cast(n, a, b), NewNode(cfg, n, a))
  {
    var b', n' := Cast(n, a, b), NewNode(cfg, n, a);
    CastExtends(cfg, n, a, b);
    if n.role.Leader? && Strict(cfg, n.id) {
      ElectedStays(cfg.voters, b, b', n.term, n.id);
    }
    if a.Win? && Strict(cfg, n.id) {
      Quorum.SubsetSize(n.granted, Supporters(cfg.voters, b, n.term, n.id));
    }
    if a.Tally? {
      assert a.m in Consumed(a);
    }
  }

  lemma NewMessagesOk(cfg: Config, n: Node, a: Action, b: Ballots)
    requires n.id in cfg.voters && Guard(cfg, n, a)
    requires cfg.Valid() && NodeOk(cfg, b, n)
    ensures forall m | m in NewMessages(cfg, n, a) :: MsgOk(cfg, Cast(n, a, b), m)
  {
  }

  lemma Assemble(cfg: Config, c: State, b: Ballots, i: Id, n': Node, out: set<Message>, b': Ballots)
    requires Inv(cfg, c, b) && i in cfg.voters && n'.id == i
    requires Extends(b, b') && (forall s | s in b' && s !in b :: s.node == i)
    requires NodeOk(cfg, b', n') && (forall m | m in out :: MsgOk(cfg, b', m))
    ensures Inv(cfg, Put(c, i, n', out), b')
  {
    ReplaceWellFormed(cfg, c, i, n', out);
    forall j | j in cfg.voters && j != i ensures NodeOk(cfg, b', c.nodes[j]) {
      BystanderOk(cfg, b, b', c.nodes[j], i);
    }
    forall m | m in c.net ensures MsgOk(cfg, b', m) {
      assert MsgOk(cfg, b, m);
    }
  }

  lemma ActionKeepsInv(cfg: Config, c: State, b: Ballots, a: Action)
    requires Inv(cfg, c, b) && Enabled(cfg, c, a)
    ensures Inv(cfg, Effect(cfg, c, a), Cast(c.nodes[a.i], a, b))
    ensures Extends(b, Cast(c.nodes[a.i], a, b))
  {
    var n := c.nodes[a.i];
    CastExtends(cfg, n, a, b);
    NewNodeKeepsShape(cfg, n, a);
    ActorBallot(cfg, n, a, b);
    ActorRole(cfg, n, a, b);
    NewMessagesOk(cfg, n, a, b);
    Assemble(cfg, c, b, a.i, NewNode(cfg, n, a), NewMessages(cfg, n, a), Cast(n, a, b));
  }
}
