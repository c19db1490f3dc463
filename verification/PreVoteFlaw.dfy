/**
 * As written, step_candidate lets a candidate count answers to the pre-vote it held before
 * (raft.cpp:803-812), although its comment and raft.h:40-41 say otherwise. This module builds the
 * runs in which two nodes lead the same term, and shows exactly which configurations have one.
 */
module PreVoteFlaw {
  import opened Proto
  import opened NodeSpec
  import opened Cluster
  import opened Election
  import opened SendWindow
  import Theorems
  import Quorum

  /** The last state of some disciplined run that starts from an empty log. */
  ghost predicate Reachable(cfg: Config, c: State) {
    exists run :: IsRun(cfg, [], run) && Disciplined(cfg, run) && run[|run| - 1] == c
  }

  lemma ReachInit(cfg: Config) returns (c: State)
    requires cfg.Valid()
    ensures Reachable(cfg, c) && WellFormed(cfg, c) && Init(cfg, [], c)
  {
    c := State(map i | i in cfg.voters :: FirstNode(i, []), {});
    assert IsRun(cfg, [], [c]);
    assert [c][|[c]| - 1] == c;
  }

  lemma ReachNext(cfg: Config, c: State, e: Event, c': State)
    requires WellFormed(cfg, c) && Reachable(cfg, c) && Happens(cfg, c, e, c') && WellFormed(cfg, c')
    requires Windowed(cfg, c, c') && forall i | i in cfg.voters :: c.nodes[i].commit <= c'.nodes[i].commit
    ensures Reachable(cfg, c')
  {
    var run :| IsRun(cfg, [], run) && Disciplined(cfg, run) && run[|run| - 1] == c;
    var longer := run + [c'];
    DisciplinedOn(cfg, run, c');
    hide Disciplined, Windowed, Init;
    forall k | 0 <= k < |longer| - 1 ensures Next(cfg, longer[k], longer[k + 1]) {
      if k < |run| - 1 {
        assert Next(cfg, run[k], run[k + 1]);
      } else {
        assert Happens(cfg, longer[k], e, longer[k + 1]);
      }
    }
    assert IsRun(cfg, [], longer);
    assert longer[|longer| - 1] == c';
  }

  lemma Delivered(cfg: Config, c: State, i: Id, m: Message, n': Node, out: set<Message>) returns (c': State)
    requires WellFormed(cfg, c) && Reachable(cfg, c) && i in cfg.voters && n'.id == i
    requires m.Local() || m.Prop? || (m in c.net && m.to == i)
    requires !Fatal(cfg, c.nodes[i], m) && Step(cfg, c.nodes[i], m, n', out)
    requires forall x | x in out && (x.App? || x.Snap?) :: x.App? && x.from == i && InWindow(c.net, n', x)
    ensures c' == State(c.nodes[i := n'], c.net + out) && WellFormed(cfg, c') && Reachable(cfg, c')
  {
    hide Reachable, Step, Fatal, InWindow;
    c' := State(c.nodes[i := n'], c.net + out);
    assert WellFormed(cfg, c');
    assert Happens(cfg, c, Deliver(i, m, out), c');
    CommitsStay(cfg, c, Deliver(i, m, out), c');
    hide Happens;
    ReachNext(cfg, c, Deliver(i, m, out), c');
  }

  lemma CommitsStay(cfg: Config, c: State, e: Event, c': State)
    requires WellFormed(cfg, c) && Happens(cfg, c, e, c') && e.Deliver? && WellFormed(cfg, c')
    ensures forall j | j in cfg.voters :: c.nodes[j].commit <= c'.nodes[j].commit
  {
    forall j | j in cfg.voters ensures c.nodes[j].commit <= c'.nodes[j].commit {
      Theorems.CommitNeverDecreases(cfg, c, e, c', j);
    }
  }

  /** c' differs from c in node a alone, and has at least c's messages. */
  ghost predicate OnlyNode(cfg: Config, c: State, a: Id, c': State) {
    && WellFormed(cfg, c') && Reachable(cfg, c') && c.net <= c'.net
    && forall x | x in cfg.voters && x != a :: x in c.nodes && c'.nodes[x] == c.nodes[x]
  }

  /** A node that has no reason to turn down a candidate of this term and log. */
  predicate Willing(n: Node, term: Term, index: nat, logTerm: Term) {
    n.term < term && UpToDate(n.log, index, logTerm)
  }

  /** Willing nodes grant a pre-vote and remember nothing of it. */
  lemma {:induction false} GatherPreVotes(cfg: Config, c: State, a: Id, term: Term, index: nat, logTerm: Term, todo: set<Id>)
    returns (c': State)
    requires WellFormed(cfg, c) && Reachable(cfg, c) && todo <= cfg.voters
    requires forall x | x in todo ::
      Willing(c.nodes[x], term, index, logTerm) && PreVote(a, x, term, index, logTerm) in c.net
    ensures WellFormed(cfg, c') && Reachable(cfg, c') && c'.nodes == c.nodes && c.net <= c'.net
    ensures forall x | x in todo :: PreVoteResp(x, a, term, false) in c'.net
    decreases |todo|
  {
    if todo == {} {
      c' := c;
    } else {
      var x :| x in todo;
      var m := PreVote(a, x, term, index, logTerm);
      var c1 := Delivered(cfg, c, x, m, c.nodes[x], {PreVoteResp(x, a, term, false)});
      assert c1.nodes == c.nodes;
      c' := GatherPreVotes(cfg, c1, a, term, index, logTerm, todo - {x});
    }
  }

  function Answer(genuine: bool, term: Term, x: Id, a: Id): Message {
    if genuine then VoteResp(x, a, term, false) else PreVoteResp(x, a, term, false)
  }

  /** A leader of its first moment: one empty entry behind the log it stood with. */
  predicate Elevated(n: Node, n': Node, term: Term) {
    && n'.id == n.id && n'.role.Leader? && n'.term == term && n'.commit == n.commit
    && n'.log == n.log + [Entry(Normal, term, |n.log| + 1, [])]
    && n'.matched == map[n.id := |n'.log|]
  }

  /** What a candidate, or pre-candidate, turns into once enough answers are in. */
  ghost predicate Promoted(n: Node, n': Node) {
    && n'.id == n.id
    && (n.role.PreCandidate? ==>
          && n'.role.Candidate? && n'.term == n.term + 1 && n'.log == n.log && n'.commit == n.commit
          && n'.granted == {n.id} && n'.refused == {})
    && (n.role.Candidate? ==> Elevated(n, n', n.term))
  }

  /** The state of a node that is counting answers in the two-leader runs. */
  ghost predicate Counting(cfg: Config, n: Node, term: Term, genuine: bool) {
    && n.id in cfg.voters && n.refused == {} && n.granted <= cfg.voters && n.term >= 1 && LastTerm(n.log) < term
    && ((n.role.PreCandidate? && n.term + 1 == term && !genuine) || (n.role.Candidate? && n.term == term))
  }

  /** Without the guard any granted answer is counted, of either type and in either candidacy. */
  lemma AnswerCounts(cfg: Config, n: Node, term: Term, x: Id, genuine: bool, n': Node, out: set<Message>)
    requires cfg.Valid() && !cfg.guarded && Counting(cfg, n, term, genuine) && CountVote(cfg, n, x, true, n', out)
    ensures Step(cfg, n, Answer(genuine, term, x, n.id), n', out)
  {
    hide CountVote, BecomeFollower;
  }

  /** Among several voters nothing is committed by the election alone. */
  lemma NothingBackedAlone(voters: set<Id>, i: Id, k: nat)
    requires |voters| >= 2
    ensures Quorum.MajorityIndex(voters, map[i := k]) == 0
  {
    var l := Quorum.MajorityIndex(voters, map[i := k]);
    if l > 0 {
      Quorum.SubsetSize(Quorum.Backers(voters, map[i := k], l), {i});
    }
  }

  /** The appends that a new leader sends: its empty entry, behind the log it stood with. */
  function FirstAppends(voters: set<Id>, n: Node, n': Node): set<Message>
    requires |n'.log| > |n.log|
  {
    set j | j in voters && j != n.id ::
      App(n.id, j, n'.term, |n.log|, LastTerm(n.log), n'.log[|n.log|..], n'.commit)
  }

  lemma Crown(cfg: Config, n: Node) returns (n': Node, out: set<Message>)
    requires cfg.Valid() && n.id in cfg.voters && |cfg.voters| >= 2
    ensures n' == BecomeLeader(cfg.voters, n) && Elevated(n, n', n.term)
    ensures LeaderSends(cfg.voters, n', out) && out == FirstAppends(cfg.voters, n, n')
  {
    n' := BecomeLeader(cfg.voters, n);
    var log := n.log + Stamp(n.term, |n.log|, [NOOP]);
    assert map[n.id := |n.log|][n.id := |log|] == map[n.id := |log|];
    NothingBackedAlone(cfg.voters, n.id, |log|);
    out := FirstAppends(cfg.voters, n, n');
  }

  /** A new leader's first appends are on their way. */
  ghost predicate Greets(voters: set<Id>, n: Node, n': Node, net: set<Message>) {
    |n'.log| > |n.log| && FirstAppends(voters, n, n') <= net
  }

  /** They are what its send window allows. */
  lemma GreetingsFit(net: set<Message>, voters: set<Id>, n: Node, n': Node, m: Message)
    requires Elevated(n, n', n'.term) && LastTerm(n.log) < n'.term && m in FirstAppends(voters, n, n')
    ensures m.App? && m.from == n'.id && InWindow(net, n', m)
  {
    assert TermAt(n'.log, |n.log|) == LastTerm(n.log);
    assert n'.log[|n.log|..] != [];
  }

  lemma Promote(cfg: Config, net: set<Message>, n: Node, term: Term, x: Id, genuine: bool) returns (n': Node, out: set<Message>)
    requires cfg.Valid() && !cfg.guarded && Counting(cfg, n, term, genuine) && |cfg.voters| >= 2
    requires x !in n.granted && |n.granted| + 1 == Quorum.Size(cfg.voters)
    ensures Step(cfg, n, Answer(genuine, term, x, n.id), n', out) && Promoted(n, n')
    ensures n.role.Candidate? ==> Greets(cfg.voters, n, n', out)
    ensures forall m | m in out && (m.App? || m.Snap?) :: m.App? && m.from == n.id && InWindow(net, n', m)
  {
    hide BecomeLeader, InWindow;
    var p := Poll(n, x, true);
    assert |p.granted| == |n.granted| + 1;
    if n.role.PreCandidate? {
      var v := Poll(BecomeCandidate(p), p.id, true);
      assert v.granted == {n.id};
      var r := Campaign(cfg.voters, p, false);
      n', out := r.0, r.1;
    } else {
      n', out := Crown(cfg, p);
      forall m | m in out ensures m.App? && m.from == n.id && InWindow(net, n', m) {
        GreetingsFit(net, cfg.voters, p, n', m);
      }
    }
    AnswerCounts(cfg, n, term, x, genuine, n', out);
  }

  lemma CountLast(cfg: Config, c: State, a: Id, term: Term, x: Id, genuine: bool) returns (c': State)
    requires WellFormed(cfg, c) && Reachable(cfg, c) && a in cfg.voters && !cfg.guarded
    requires Counting(cfg, c.nodes[a], term, genuine) && |cfg.voters| >= 2 && Answer(genuine, term, x, a) in c.net
    requires x !in c.nodes[a].granted && |c.nodes[a].granted| + 1 == Quorum.Size(cfg.voters)
    ensures OnlyNode(cfg, c, a, c') && Promoted(c.nodes[a], c'.nodes[a])
    ensures c.nodes[a].role.Candidate? ==> Greets(cfg.voters, c.nodes[a], c'.nodes[a], c'.net)
  {
    hide Reachable, Step, Promoted, InWindow;
    var n', out := Promote(cfg, c.net, c.nodes[a], term, x, genuine);
    PromotedKeepsId(c.nodes[a], n');
    c' := Delivered(cfg, c, a, Answer(genuine, term, x, a), n', out);
  }

  lemma PromotedKeepsId(n: Node, n': Node)
    requires Promoted(n, n')
    ensures n'.id == n.id
  {
  }

  lemma CountOne(cfg: Config, c: State, a: Id, term: Term, x: Id, genuine: bool) returns (c': State)
    requires WellFormed(cfg, c) && Reachable(cfg, c) && a in cfg.voters && !cfg.guarded
    requires Counting(cfg, c.nodes[a], term, genuine) && Answer(genuine, term, x, a) in c.net && x in cfg.voters
    requires x !in c.nodes[a].granted && |c.nodes[a].granted| + 1 < Quorum.Size(cfg.voters)
    ensures OnlyNode(cfg, c, a, c') && c'.nodes[a] == c.nodes[a].(granted := c.nodes[a].granted + {x})
  {
    hide Reachable, Step;
    var n' := Counted(cfg, c.nodes[a], term, x, genuine);
    c' := Delivered(cfg, c, a, Answer(genuine, term, x, a), n', {});
  }

  lemma Counted(cfg: Config, n: Node, term: Term, x: Id, genuine: bool) returns (n': Node)
    requires cfg.Valid() && !cfg.guarded && Counting(cfg, n, term, genuine)
    requires x !in n.granted && |n.granted| + 1 < Quorum.Size(cfg.voters)
    ensures n' == n.(granted := n.granted + {x}) && Step(cfg, n, Answer(genuine, term, x, n.id), n', {})
  {
    n' := Poll(n, x, true);
    assert |n'.granted| == |n.granted| + 1;
    AnswerCounts(cfg, n, term, x, genuine, n', {});
  }

  /** Counting answers one by one, up to the one that makes a majority. */
  lemma {:induction false} CountAll(cfg: Config, c: State, a: Id, term: Term, todo: set<Id>, genuine: bool) returns (c': State)
    requires WellFormed(cfg, c) && Reachable(cfg, c) && a in cfg.voters && !cfg.guarded
    requires Counting(cfg, c.nodes[a], term, genuine) && |cfg.voters| >= 2 && todo != {} && todo <= cfg.voters
    requires todo !! c.nodes[a].granted && |c.nodes[a].granted| + |todo| == Quorum.Size(cfg.voters)
    requires forall x | x in todo :: Answer(genuine, term, x, a) in c.net
    ensures OnlyNode(cfg, c, a, c') && Promoted(c.nodes[a], c'.nodes[a])
    ensures c.nodes[a].role.Candidate? ==> Greets(cfg.voters, c.nodes[a], c'.nodes[a], c'.net)
    decreases |todo|
  {
    hide Reachable;
    var x :| x in todo;
    var rest := todo - {x};
    assert |rest| == |todo| - 1;
    if rest == {} {
      c' := CountLast(cfg, c, a, term, x, genuine);
    } else {
      assert |rest| > 0;
      var c1 := CountOne(cfg, c, a, term, x, genuine);
      var n1 := c1.nodes[a];
      assert |n1.granted| == |c.nodes[a].granted| + 1;
      c' := CountAll(cfg, c1, a, term, rest, genuine);
    }
  }

  // ---------------------------------------------------------------- getting started

  lemma PreStandsUp(cfg: Config, c: State, a: Id) returns (c': State)
    requires WellFormed(cfg, c) && Reachable(cfg, c) && a in cfg.preVote && |cfg.voters| >= 2
    requires !c.nodes[a].role.Leader?
    ensures OnlyNode(cfg, c, a, c') && c'.nodes[a] == BecomePreCandidate(c.nodes[a]).(granted := {a})
    ensures var n := c.nodes[a];
      forall x | x in cfg.voters && x != a :: PreVote(a, x, n.term + 1, |n.log|, LastTerm(n.log)) in c'.net
  {
    hide Reachable, InWindow;
    var n := c.nodes[a];
    var p := Poll(BecomePreCandidate(n), a, true);
    assert p.granted == {a};
    var out := PreVoteRequests(cfg.voters, p);
    assert PreCampaign(cfg.voters, n) == (p, out);
    assert StepHup(cfg, n, p, out);
    assert Step(cfg, n, Hup, p, out);
    c' := Delivered(cfg, c, a, Hup, p, out);
  }

  lemma StandsUp(cfg: Config, c: State, b: Id) returns (c': State)
    requires WellFormed(cfg, c) && Reachable(cfg, c) && b in cfg.voters && b !in cfg.preVote && |cfg.voters| >= 2
    requires !c.nodes[b].role.Leader?
    ensures OnlyNode(cfg, c, b, c') && c'.nodes[b] == BecomeCandidate(c.nodes[b]).(granted := {b})
    ensures var n := c.nodes[b];
      forall x | x in cfg.voters && x != b :: Vote(b, x, n.term + 1, |n.log|, LastTerm(n.log), false) in c'.net
  {
    hide Reachable, InWindow;
    var n := c.nodes[b];
    var p := Poll(BecomeCandidate(n), b, true);
    assert p.granted == {b};
    var out := VoteRequests(cfg.voters, p, false);
    assert Campaign(cfg.voters, n, false) == (p, out);
    assert StepHup(cfg, n, p, out);
    assert Step(cfg, n, Hup, p, out);
    c' := Delivered(cfg, c, b, Hup, p, out);
  }

  lemma GrantsVote(cfg: Config, n: Node, b: Id, term: Term, index: nat, logTerm: Term) returns (n': Node)
    requires cfg.Valid() && n.id in cfg.voters && Willing(n, term, index, logTerm)
    ensures n' == BecomeFollower(n, term, NONE).(vote := b)
    ensures Step(cfg, n, Vote(b, n.id, term, index, logTerm, false), n', {VoteResp(n.id, b, term, false)})
  {
    var m := Vote(b, n.id, term, index, logTerm, false);
    var n1 := CatchUp(n, m);
    n' := n1.(vote := b);
    assert HandleVote(n1, m) == (n', {VoteResp(n.id, b, term, false)});
    assert Dispatch(cfg, n1, m, n', {VoteResp(n.id, b, term, false)});
  }

  lemma {:induction false} GatherVotes(cfg: Config, c: State, b: Id, term: Term, index: nat, logTerm: Term, todo: set<Id>)
    returns (c': State)
    requires WellFormed(cfg, c) && Reachable(cfg, c) && todo <= cfg.voters
    requires forall x | x in todo ::
      Willing(c.nodes[x], term, index, logTerm) && Vote(b, x, term, index, logTerm, false) in c.net
    ensures WellFormed(cfg, c') && Reachable(cfg, c') && c.net <= c'.net
    ensures forall x | x in cfg.voters ::
      c'.nodes[x] == if x in todo then BecomeFollower(c.nodes[x], term, NONE).(vote := b) else c.nodes[x]
    ensures forall x | x in todo :: VoteResp(x, b, term, false) in c'.net
    decreases |todo|
  {
    hide Reachable, Step, Willing;
    if todo == {} {
      c' := c;
    } else {
      var x :| x in todo;
      var m := Vote(b, x, term, index, logTerm, false);
      var n' := GrantsVote(cfg, c.nodes[x], b, term, index, logTerm);
      var c1 := Delivered(cfg, c, x, m, n', {VoteResp(x, b, term, false)});
      c' := GatherVotes(cfg, c1, b, term, index, logTerm, todo - {x});
    }
  }

  // ---------------------------------------------------------------- the two-leader runs

  /** Late pre-vote answers carry a node from pre-candidate to leader of the next term. */
  lemma RisesOnPreVotes(cfg: Config, c: State, a: Id, s: set<Id>) returns (c': State)
    requires WellFormed(cfg, c) && Reachable(cfg, c) && a in cfg.voters && !cfg.guarded && |cfg.voters| >= 2
    requires var n := c.nodes[a];
      n.role.PreCandidate? && n.granted == {a} && n.refused == {} && n.term >= 1 && LastTerm(n.log) <= n.term
    requires s <= cfg.voters && a !in s && s != {} && |s| + 1 == Quorum.Size(cfg.voters)
    requires forall x | x in s :: PreVoteResp(x, a, c.nodes[a].term + 1, false) in c.net
    ensures OnlyNode(cfg, c, a, c') && Elevated(c.nodes[a], c'.nodes[a], c.nodes[a].term + 1)
    ensures Greets(cfg.voters, c.nodes[a], c'.nodes[a], c'.net)
  {
    hide Reachable, LastTerm, TermAt;
    var term := c.nodes[a].term + 1;
    assert forall x | x in s :: Answer(false, term, x, a) in c.net;
    var c1 := CountAll(cfg, c, a, term, s, false);
    c' := CountAll(cfg, c1, a, term, s, false);
  }

  lemma {:induction false} SubsetOfSize(s: set<Id>, k: nat) returns (r: set<Id>)
    requires k <= |s|
    ensures r <= s && |r| == k
  {
    if k == |s| {
      r := s;
    } else {
      var x :| x in s;
      assert |s - {x}| == |s| - 1;
      r := SubsetOfSize(s - {x}, k);
    }
  }

  /** A voter that has not led, with an empty log, in one of the first two terms. */
  predicate Bare(n: Node) {
    n.role.Follower? && 1 <= n.term <= 2 && n.log == [] && n.commit == 0
  }

  /** The first entry of a leader of term 2. */
  const FIRST := Entry(Normal, 2, 1, [])

  predicate Rules(n: Node, id: Id) {
    && n.id == id && n.role.Leader? && n.term == 2 && n.log == [FIRST] && n.commit == 0
    && n.matched == map[id := 1]
  }

  /** Two nodes lead term 2, and nobody else has an entry. */
  ghost predicate Rivals(cfg: Config, c: State, a: Id, b: Id) {
    && a in cfg.voters && b in cfg.voters && a in c.nodes && b in c.nodes && a != b
    && Rules(c.nodes[a], a) && Rules(c.nodes[b], b)
    && forall x | x in cfg.voters && x != a && x != b :: x in c.nodes && Bare(c.nodes[x])
  }

  lemma Company(cfg: Config, a: Id) returns (s: set<Id>)
    requires a in cfg.voters && |cfg.voters| >= 2
    ensures s <= cfg.voters && a !in s && s != {} && |s| + 1 == Quorum.Size(cfg.voters)
  {
    assert |cfg.voters - {a}| == |cfg.voters| - 1;
    s := SubsetOfSize(cfg.voters - {a}, Quorum.Size(cfg.voters) - 1);
    assert |s| > 0;
  }

  lemma FirstIsElevated(n: Node, n': Node, id: Id)
    requires Elevated(n, n', 2) && n.log == [] && n.commit == 0 && n.id == id
    ensures Rules(n', id)
  {
  }

  /** Two nodes with pre-vote on. */
  lemma BothOnPreVotes(cfg: Config, a: Id, b: Id) returns (c: State)
    requires cfg.Valid() && !cfg.guarded && a in cfg.preVote && b in cfg.preVote && a != b && |cfg.voters| >= 2
    ensures Reachable(cfg, c) && WellFormed(cfg, c) && Rivals(cfg, c, a, b)
  {
    hide Reachable, Greets, Elevated, Rules;
    var s := Company(cfg, a);
    var r := Company(cfg, b);
    var c0 := ReachInit(cfg);
    var c1 := PreStandsUp(cfg, c0, a);
    var c2 := PreStandsUp(cfg, c1, b);
    var c3 := GatherPreVotes(cfg, c2, a, 2, 0, 0, s);
    var c4 := GatherPreVotes(cfg, c3, b, 2, 0, 0, r);
    var c5 := RisesOnPreVotes(cfg, c4, a, s);
    c := RisesOnPreVotes(cfg, c5, b, r);
    FirstIsElevated(c4.nodes[a], c5.nodes[a], a);
    FirstIsElevated(c5.nodes[b], c.nodes[b], b);
  }

  /** One node with pre-vote on, and at least two others. */
  lemma OneOnPreVotes(cfg: Config, a: Id, b: Id) returns (c: State)
    requires cfg.Valid() && !cfg.guarded && a in cfg.preVote && b in cfg.voters && b !in cfg.preVote
    requires |cfg.voters| >= 3
    ensures Reachable(cfg, c) && WellFormed(cfg, c) && Rivals(cfg, c, a, b)
  {
    hide Reachable, Greets, Elevated, Rules;
    var s := Company(cfg, a);
    assert |cfg.voters - {a, b}| == |cfg.voters| - 2;
    var r := SubsetOfSize(cfg.voters - {a, b}, Quorum.Size(cfg.voters) - 1);
    assert |r| > 0;
    var c0 := ReachInit(cfg);
    var c1 := PreStandsUp(cfg, c0, a);
    var c2 := GatherPreVotes(cfg, c1, a, 2, 0, 0, s);
    var c3 := RisesOnPreVotes(cfg, c2, a, s);
    FirstIsElevated(c2.nodes[a], c3.nodes[a], a);
    c := RisesOnVotes(cfg, c3, a, b, r);
  }

  /** b is elected to term 2 by voters that never saw the other leader. */
  lemma RisesOnVotes(cfg: Config, c: State, a: Id, b: Id, r: set<Id>) returns (c': State)
    requires WellFormed(cfg, c) && Reachable(cfg, c) && !cfg.guarded && |cfg.voters| >= 3
    requires a in cfg.voters && b in cfg.voters && b !in cfg.preVote && a != b && Rules(c.nodes[a], a)
    requires forall x | x in cfg.voters && x != a :: Bare(c.nodes[x]) && c.nodes[x].term == 1
    requires r <= cfg.voters - {a, b} && r != {} && |r| + 1 == Quorum.Size(cfg.voters)
    ensures Reachable(cfg, c') && WellFormed(cfg, c') && Rivals(cfg, c', a, b)
  {
    hide Reachable, Greets, Elevated, Rules;
    var c4 := StandsUp(cfg, c, b);
    var c5 := GatherVotes(cfg, c4, b, 2, 0, 0, r);
    assert forall x | x in r :: Answer(true, 2, x, b) in c5.net;
    c' := CountAll(cfg, c5, b, 2, r, true);
    FirstIsElevated(c5.nodes[b], c'.nodes[b], b);
  }

  /** Every exposed configuration comes to have two leaders of one term, the first of which pre-votes. */
  lemma RivalsArise(cfg: Config) returns (c: State, a: Id, b: Id)
    requires cfg.Valid() && Exposed(cfg)
    ensures Reachable(cfg, c) && WellFormed(cfg, c) && Rivals(cfg, c, a, b) && a in cfg.preVote
  {
    a :| a in cfg.preVote;
    if b' :| b' in cfg.preVote && b' != a {
      b := b';
      c := BothOnPreVotes(cfg, a, b);
    } else {
      assert cfg.preVote == {a};
      assert |cfg.voters - {a}| > 0;
      b :| b in cfg.voters - {a};
      c := OneOnPreVotes(cfg, a, b);
    }
  }

  // ---------------------------------------------------------------- the exact condition

  ghost predicate OneLeader(cfg: Config, boot: seq<Entry>, run: seq<State>, k: nat, l: nat, i: Id, j: Id, term: Term) {
    IsRun(cfg, boot, run) && Theorems.Leads(cfg, run, k, i, term) && Theorems.Leads(cfg, run, l, j, term) ==> i == j
  }

  /** At most one leader per term, in every run. */
  ghost predicate ElectionSafe(cfg: Config) {
    forall boot, run, k: nat, l: nat, i, j, term :: OneLeader(cfg, boot, run, k, l, i, j, term)
  }

  lemma ExposedIsUnsafe(cfg: Config)
    requires cfg.Valid() && Exposed(cfg)
    ensures !ElectionSafe(cfg)
  {
    var c, a, b := RivalsArise(cfg);
    var run :| IsRun(cfg, [], run) && run[|run| - 1] == c;
    var last := |run| - 1;
    assert Theorems.Leads(cfg, run, last, a, 2) && Theorems.Leads(cfg, run, last, b, 2);
    assert !OneLeader(cfg, [], run, last, last, a, b, 2);
  }

  lemma UnexposedIsSafe(cfg: Config)
    requires cfg.Valid() && !Exposed(cfg)
    ensures ElectionSafe(cfg)
  {
    forall boot, run, k: nat, l: nat, i, j, term ensures OneLeader(cfg, boot, run, k, l, i, j, term) {
      if IsRun(cfg, boot, run) && Theorems.Leads(cfg, run, k, i, term) && Theorems.Leads(cfg, run, l, j, term) {
        if k <= l {
          Theorems.ElectionSafety(cfg, boot, run, k, l, i, j, term);
        } else {
          Theorems.ElectionSafety(cfg, boot, run, l, k, j, i, term);
        }
      }
    }
  }

  /**
   * Election safety holds in every run exactly when the configuration is not exposed: the
   * documented guard is in place, or nobody uses pre-vote, or there are too few voters to matter.
   */
  lemma ElectionSafetyCondition(cfg: Config)
    requires cfg.Valid()
    ensures ElectionSafe(cfg) <==> !Exposed(cfg)
  {
    if Exposed(cfg) {
      ExposedIsUnsafe(cfg);
    } else {
      UnexposedIsSafe(cfg);
    }
  }

  /** The server runs every node with check_quorum and pre_vote on (raft_node.cpp:52-53). */
  lemma ServerConfigurationUnsafe(voters: set<Id>)
    requires NONE !in voters && |voters| >= 2
    ensures !ElectionSafe(Config(voters, true, voters, false))
  {
    ElectionSafetyCondition(Config(voters, true, voters, false));
  }
}
