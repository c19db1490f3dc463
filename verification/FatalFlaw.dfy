/**
 * How two leaders of one term make a node throw, given a third voter: it acknowledges the log of one of
 * them, the other's append, late, cuts it short, and then a heartbeat of the first commits what is no
 * longer there (raft-kv/raft/raft_log.cpp:189-193).
 *
 * Every step is one the code takes with check_quorum on. Only followers and candidates that know no
 * leader, so outside any lease (raft-kv/raft/raft.cpp:283-301), are asked for votes; and every append is
 * the one that the follower's progress calls for (FirstProbe, LowerProbe). Messages that the code sends
 * besides are as good as lost.
 */
module FatalFlaw {
  import opened Proto
  import opened NodeSpec
  import opened Cluster
  import opened Election
  import opened PreVoteFlaw
  import opened LogFlaw
  import opened SendWindow
  import Progress
  import Quorum
  import RaftCore

  // ---------------------------------------------------------------- two leaders of term 3

  /** One has led term 2 as well and has an entry more from then. */
  const LONGER := OURS + [Entry(Normal, 3, 3, [])]
  const SHORTER := [FIRST, Entry(Normal, 3, 2, [])]

  /** x may have voted, but has no entry. */
  predicate Fresh(n: Node) {
    Near(n, 3) && n.log == []
  }

  ghost predicate Unequal(cfg: Config, c: State, a: Id, b: Id) {
    && a in cfg.voters && b in cfg.voters && a in c.nodes && b in c.nodes && a != b
    && Alone(c.nodes[a], a, 3, LONGER) && Alone(c.nodes[b], b, 3, SHORTER)
    && (forall x | x in cfg.voters && x != a && x != b :: x in c.nodes && Fresh(c.nodes[x]))
    && (forall x | x in cfg.voters && x != b :: App(b, x, 3, 1, 2, [SHORTER[1]], 0) in c.net)
    && (forall x | x in cfg.voters && x != a :: App(a, x, 3, 2, 2, [LONGER[2]], 0) in c.net)
  }

  lemma BareIsFresh(n: Node)
    requires Bare(n)
    ensures Fresh(n) && Fresh(BecomeFollower(n, 3, NONE)) && forall b :: Fresh(BecomeFollower(n, 3, NONE).(vote := b))
  {
  }

  lemma ElevatedIsAlone(n: Node, n': Node, id: Id, log: seq<Entry>)
    requires Elevated(n, n', 3) && n.id == id && n.log == log && n.commit == 0
    ensures Alone(n', id, 3, log + [Entry(Normal, 3, |log| + 1, [])])
  {
  }

  lemma GreetsShort(voters: set<Id>, n: Node, n': Node, net: set<Message>, x: Id)
    requires Greets(voters, n, n', net) && x in voters && x != n.id
    requires n.log == [FIRST] && n'.log == SHORTER && n'.term == 3 && n'.commit == 0
    ensures App(n.id, x, 3, 1, 2, [SHORTER[1]], 0) in net
  {
    assert SHORTER[1..] == [SHORTER[1]];
    assert App(n.id, x, n'.term, |n.log|, LastTerm(n.log), n'.log[|n.log|..], n'.commit) in FirstAppends(voters, n, n');
  }

  lemma GreetsLong(voters: set<Id>, n: Node, n': Node, net: set<Message>, x: Id)
    requires Greets(voters, n, n', net) && x in voters && x != n.id
    requires n.log == OURS && n'.log == LONGER && n'.term == 3 && n'.commit == 0
    ensures App(n.id, x, 3, 2, 2, [LONGER[2]], 0) in net
  {
    assert LONGER[2..] == [LONGER[2]] && LastTerm(OURS) == 2;
    assert App(n.id, x, n'.term, |n.log|, LastTerm(n.log), n'.log[|n.log|..], n'.commit) in FirstAppends(voters, n, n');
  }

  /** a proposes, crashes, and asks for pre-votes of term 3. */
  lemma AsksAgain(cfg: Config, c: State, a: Id) returns (c': State)
    requires WellFormed(cfg, c) && Reachable(cfg, c) && a in cfg.preVote && |cfg.voters| >= 2
    requires Alone(c.nodes[a], a, 2, [FIRST])
    ensures OnlyNode(cfg, c, a, c')
    ensures var n := c'.nodes[a];
      n.role.PreCandidate? && n.term == 2 && n.granted == {a} && n.refused == {} && n.log == OURS && n.commit == 0 && n.id == a
    ensures forall x | x in cfg.voters && x != a :: PreVote(a, x, 3, 2, 2) in c'.net
  {
    hide Reachable;
    var c1 := Proposes(cfg, c, a, [FIRST], [1]);
    assert c1.nodes[a].log == OURS && LastTerm(OURS) == 2;
    var c2 := ComesBack(cfg, c1, a);
    c' := PreStandsUp(cfg, c2, a);
  }

  /** b, which led with one entry, crashes. */
  lemma FallsBack(cfg: Config, c: State, b: Id) returns (c': State)
    requires WellFormed(cfg, c) && Reachable(cfg, c) && b in cfg.voters && Alone(c.nodes[b], b, 2, [FIRST])
    ensures OnlyNode(cfg, c, b, c')
    ensures var n := c'.nodes[b]; n.role.Follower? && n.term == 2 && n.log == [FIRST] && n.commit == 0 && n.id == b
  {
    hide Reachable;
    c' := ComesBack(cfg, c, b);
  }

  lemma RivalsAreAlone(cfg: Config, c: State, a: Id, b: Id)
    requires Rivals(cfg, c, a, b)
    ensures Alone(c.nodes[a], a, 2, [FIRST]) && Alone(c.nodes[b], b, 2, [FIRST])
  {
  }

  lemma BareWills(n: Node, index: nat)
    requires Bare(n)
    ensures Willing(n, 3, index, 2)
  {
  }

  /** Both pre-vote; b asks voters that know no leader. */
  lemma UnequalOnPreVotes(cfg: Config, c: State, a: Id, b: Id) returns (c': State)
    requires WellFormed(cfg, c) && Reachable(cfg, c) && Rivals(cfg, c, a, b)
    requires cfg.Valid() && !cfg.guarded && a in cfg.preVote && b in cfg.preVote && |cfg.voters| >= 3
    ensures WellFormed(cfg, c') && Reachable(cfg, c') && Unequal(cfg, c', a, b)
  {
    hide Reachable, Alone, Elevated, Bare, Fresh, Greets, Rules;
    RivalsAreAlone(cfg, c, a, b);
    var c1 := FallsBack(cfg, c, b);
    var c2 := AsksAgain(cfg, c1, a);
    var s := Company(cfg, a);
    forall x | x in s ensures Willing(c2.nodes[x], 3, 2, 2) {
      if x != b {
        BareWills(c.nodes[x], 2);
      }
    }
    var c3 := GatherPreVotes(cfg, c2, a, 3, 2, 2, s);
    var c4 := ShorterAsks(cfg, c3, a, b, c);
    c' := LongerWins(cfg, c, c4, a, b, s);
  }

  /** b wins the pre-votes, and then the late pre-votes, of others than a. */
  lemma ShorterAsks(cfg: Config, c: State, a: Id, b: Id, was: State) returns (c': State)
    requires WellFormed(cfg, c) && Reachable(cfg, c) && a in cfg.voters && b in cfg.preVote && a != b
    requires cfg.Valid() && !cfg.guarded && |cfg.voters| >= 3
    requires var n := c.nodes[b]; n.role.Follower? && n.term == 2 && n.log == [FIRST] && n.commit == 0
    requires forall x | x in cfg.voters && x != a && x != b :: x in was.nodes && c.nodes[x] == was.nodes[x] && Bare(was.nodes[x])
    ensures OnlyNode(cfg, c, b, c')
    ensures Alone(c'.nodes[b], b, 3, [FIRST] + [Entry(Normal, 3, 2, [])])
    ensures forall x | x in cfg.voters && x != b :: App(b, x, 3, 1, 2, [SHORTER[1]], 0) in c'.net
  {
    hide Reachable, Alone, Elevated, Bare, Greets;
    assert LastTerm([FIRST]) == 2;
    assert |cfg.voters - {a, b}| == |cfg.voters| - 2;
    var q := SubsetOfSize(cfg.voters - {a, b}, Quorum.Size(cfg.voters) - 1);
    assert |q| > 0;
    var c1 := PreStandsUp(cfg, c, b);
    forall x | x in q ensures Willing(c1.nodes[x], 3, 1, 2) {
      BareWills(was.nodes[x], 1);
    }
    var c2 := GatherPreVotes(cfg, c1, b, 3, 1, 2, q);
    c' := RisesOnPreVotes(cfg, c2, b, q);
    ElevatedIsAlone(c2.nodes[b], c'.nodes[b], b, [FIRST]);
    AloneMeans(c'.nodes[b], b, 3, [FIRST] + [Entry(Normal, 3, 2, [])]);
    assert [FIRST] + [Entry(Normal, 3, 2, [])] == SHORTER;
    forall x | x in cfg.voters && x != b ensures App(b, x, 3, 1, 2, [SHORTER[1]], 0) in c'.net {
      GreetsShort(cfg.voters, c2.nodes[b], c'.nodes[b], c'.net, x);
    }
  }

  /** a wins the late pre-votes it asked for before. */
  lemma LongerWins(cfg: Config, c: State, c4: State, a: Id, b: Id, s: set<Id>) returns (c': State)
    requires WellFormed(cfg, c4) && Reachable(cfg, c4) && Rivals(cfg, c, a, b)
    requires cfg.Valid() && !cfg.guarded && |cfg.voters| >= 3
    requires var n := c4.nodes[a];
      n.role.PreCandidate? && n.term == 2 && n.granted == {a} && n.refused == {} && n.log == OURS && n.commit == 0 && n.id == a
    requires Alone(c4.nodes[b], b, 3, [FIRST] + [Entry(Normal, 3, 2, [])])
    requires forall x | x in cfg.voters && x != b :: App(b, x, 3, 1, 2, [SHORTER[1]], 0) in c4.net
    requires forall x | x in cfg.voters && x != a && x != b ::
      c4.nodes[x] == c.nodes[x] || c4.nodes[x] == BecomeFollower(c.nodes[x], 3, NONE).(vote := b)
    requires s <= cfg.voters && a !in s && s != {} && |s| + 1 == Quorum.Size(cfg.voters)
    requires forall x | x in s :: PreVoteResp(x, a, 3, false) in c4.net
    ensures WellFormed(cfg, c') && Reachable(cfg, c') && Unequal(cfg, c', a, b)
  {
    hide Reachable, Alone, Elevated, Bare, Fresh, Greets, Rules, OnlyNode;
    c' := RisesOnPreVotes(cfg, c4, a, s);
    OnlyNodeLeaves(cfg, c4, a, c');
    ElevatedIsAlone(c4.nodes[a], c'.nodes[a], a, OURS);
    AloneMeans(c'.nodes[a], a, 3, LONGER);
    forall x | x in cfg.voters && x != a ensures App(a, x, 3, 2, 2, [LONGER[2]], 0) in c'.net {
      GreetsLong(cfg.voters, c4.nodes[a], c'.nodes[a], c'.net, x);
    }
    Settle(cfg, c, a, b, c');
  }

  lemma Settle(cfg: Config, c: State, a: Id, b: Id, c': State)
    requires WellFormed(cfg, c') && Rivals(cfg, c, a, b)
    requires Alone(c'.nodes[a], a, 3, LONGER) && Alone(c'.nodes[b], b, 3, [FIRST] + [Entry(Normal, 3, 2, [])])
    requires forall x | x in cfg.voters && x != b :: App(b, x, 3, 1, 2, [SHORTER[1]], 0) in c'.net
    requires forall x | x in cfg.voters && x != a :: App(a, x, 3, 2, 2, [LONGER[2]], 0) in c'.net
    requires forall x | x in cfg.voters && x != a && x != b ::
      c'.nodes[x] == c.nodes[x] || c'.nodes[x] == BecomeFollower(c.nodes[x], 3, NONE).(vote := b)
    ensures Unequal(cfg, c', a, b)
  {
    hide Bare, Fresh;
    assert [FIRST] + [Entry(Normal, 3, 2, [])] == SHORTER;
    forall x | x in cfg.voters && x != a && x != b ensures Fresh(c'.nodes[x]) {
      BareIsFresh(c.nodes[x]);
    }
  }

  /** Only a pre-votes, and there are at least two others. */
  lemma UnequalOnVotes(cfg: Config, c: State, a: Id, b: Id) returns (c': State)
    requires WellFormed(cfg, c) && Reachable(cfg, c) && Rivals(cfg, c, a, b)
    requires cfg.Valid() && !cfg.guarded && a in cfg.preVote && b !in cfg.preVote && |cfg.voters| >= 3
    ensures WellFormed(cfg, c') && Reachable(cfg, c') && Unequal(cfg, c', a, b)
  {
    hide Reachable, Alone, Elevated, Bare, Fresh, Greets, Rules;
    RivalsAreAlone(cfg, c, a, b);
    var c1 := FallsBack(cfg, c, b);
    var c2 := AsksAgain(cfg, c1, a);
    var s := Company(cfg, a);
    forall x | x in s ensures Willing(c2.nodes[x], 3, 2, 2) {
      if x != b {
        BareWills(c.nodes[x], 2);
      }
    }
    var c3 := GatherPreVotes(cfg, c2, a, 3, 2, 2, s);
    c' := VotesForShorter(cfg, c, c3, a, b, s);
  }

  /** b wins the votes of r, which have no entries. */
  lemma ShorterWins(cfg: Config, c: State, a: Id, b: Id, r: set<Id>) returns (c': State)
    requires WellFormed(cfg, c) && Reachable(cfg, c) && a in cfg.voters && b in cfg.voters && b !in cfg.preVote
    requires !cfg.guarded && |cfg.voters| >= 3
    requires var n := c.nodes[b]; n.role.Follower? && n.term == 2 && n.log == [FIRST] && n.commit == 0
    requires r <= cfg.voters - {a, b} && r != {} && |r| + 1 == Quorum.Size(cfg.voters)
    requires forall x | x in r :: Bare(c.nodes[x])
    ensures WellFormed(cfg, c') && Reachable(cfg, c') && c.net <= c'.net
    ensures Alone(c'.nodes[b], b, 3, [FIRST] + [Entry(Normal, 3, 2, [])])
    ensures forall x | x in cfg.voters && x != b ::
      c'.nodes[x] == if x in r then BecomeFollower(c.nodes[x], 3, NONE).(vote := b) else c.nodes[x]
    ensures forall x | x in cfg.voters && x != b :: App(b, x, 3, 1, 2, [SHORTER[1]], 0) in c'.net
  {
    hide Reachable, Alone, Elevated, Bare, Greets, OnlyNode;
    assert LastTerm([FIRST]) == 2;
    var c1 := StandsUp(cfg, c, b);
    OnlyNodeLeaves(cfg, c, b, c1);
    forall x | x in r ensures Willing(c1.nodes[x], 3, 1, 2) {
      BareWills(c.nodes[x], 1);
    }
    hide Willing;
    var c2 := GatherVotes(cfg, c1, b, 3, 1, 2, r);
    forall x | x in r ensures Answer(true, 3, x, b) in c2.net {
    }
    c' := CountAll(cfg, c2, b, 3, r, true);
    OnlyNodeLeaves(cfg, c2, b, c');
    ElevatedIsAlone(c2.nodes[b], c'.nodes[b], b, [FIRST]);
    AloneMeans(c'.nodes[b], b, 3, [FIRST] + [Entry(Normal, 3, 2, [])]);
    assert [FIRST] + [Entry(Normal, 3, 2, [])] == SHORTER;
    forall x | x in cfg.voters && x != b ensures App(b, x, 3, 1, 2, [SHORTER[1]], 0) in c'.net {
      GreetsShort(cfg.voters, c2.nodes[b], c'.nodes[b], c'.net, x);
    }
  }

  lemma AloneMeans(n: Node, id: Id, term: Term, log: seq<Entry>)
    requires Alone(n, id, term, log)
    ensures n.id == id && n.role.Leader? && n.term == term && n.log == log && n.commit == 0
  {
  }

  lemma VotesForShorter(cfg: Config, c: State, c3: State, a: Id, b: Id, s: set<Id>) returns (c': State)
    requires WellFormed(cfg, c3) && Reachable(cfg, c3) && Rivals(cfg, c, a, b)
    requires cfg.Valid() && !cfg.guarded && a in cfg.preVote && b !in cfg.preVote && |cfg.voters| >= 3
    requires var n := c3.nodes[a];
      n.role.PreCandidate? && n.term == 2 && n.granted == {a} && n.refused == {} && n.log == OURS && n.commit == 0 && n.id == a
    requires var n := c3.nodes[b]; n.role.Follower? && n.term == 2 && n.log == [FIRST] && n.commit == 0 && n.id == b
    requires forall x | x in cfg.voters && x != a && x != b :: c3.nodes[x] == c.nodes[x]
    requires s <= cfg.voters && a !in s && s != {} && |s| + 1 == Quorum.Size(cfg.voters)
    requires forall x | x in s :: PreVoteResp(x, a, 3, false) in c3.net
    ensures WellFormed(cfg, c') && Reachable(cfg, c') && Unequal(cfg, c', a, b)
  {
    hide Reachable, Alone, Elevated, Bare, Fresh, Greets, Rules, OnlyNode;
    assert |cfg.voters - {a, b}| == |cfg.voters| - 2;
    var r := SubsetOfSize(cfg.voters - {a, b}, Quorum.Size(cfg.voters) - 1);
    assert |r| > 0;
    var c4 := ShorterWins(cfg, c3, a, b, r);
    c' := LongerWins(cfg, c, c4, a, b, s);
  }

  lemma UnequalArise(cfg: Config) returns (c: State, a: Id, b: Id)
    requires cfg.Valid() && Exposed(cfg) && |cfg.voters| >= 3
    ensures WellFormed(cfg, c) && Reachable(cfg, c) && Unequal(cfg, c, a, b)
  {
    hide Reachable, Unequal, Rivals;
    var c0, x, y := RivalsArise(cfg);
    a, b := x, y;
    assert a != b && b in cfg.voters by {
      RivalsDiffer(cfg, c0, a, b);
    }
    if b in cfg.preVote {
      c := UnequalOnPreVotes(cfg, c0, a, b);
    } else {
      c := UnequalOnVotes(cfg, c0, a, b);
    }
  }

  lemma RivalsDiffer(cfg: Config, c: State, a: Id, b: Id)
    requires Rivals(cfg, c, a, b)
    ensures a != b && a in cfg.voters && b in cfg.voters
  {
  }

  // ---------------------------------------------------------------- acknowledged, cut short, committed

  /** Some message in flight makes the node it is for throw. */
  ghost predicate CanThrow(cfg: Config, c: State, i: Id, m: Message) {
    i in cfg.voters && i in c.nodes && m in c.net && !m.Local() && m.to == i && Fatal(cfg, c.nodes[i], m)
  }

  /** What one of the leaders has committed, and x has acknowledged, a heartbeat tells x. */
  lemma BeatsOn(cfg: Config, c: State, a: Id, x: Id, log: seq<Entry>, heard: set<Id>) returns (c': State)
    requires WellFormed(cfg, c) && Reachable(cfg, c) && a in cfg.voters && x in cfg.voters && x != a && x in heard
    requires Hearing(c.nodes[a], a, 3, log, heard) && c.nodes[a].commit == |log|
    ensures WellFormed(cfg, c') && Reachable(cfg, c') && c'.nodes == c.nodes && c.net <= c'.net
    ensures Heartbeat(a, x, 3, |log|) in c'.net
  {
    var n := c.nodes[a];
    var out := Heartbeats(cfg.voters, n);
    assert StepLeader(cfg, n, Beat, n, out);
    assert Step(cfg, n, Beat, n, out);
    c' := Delivered(cfg, c, a, Beat, n, out);
    assert c'.nodes == c.nodes;
    assert Heartbeat(a, x, 3, Min(Quorum.Known(n.matched, x), n.commit)) in out;
  }

  /** An append that differs from index 2 on leaves two entries. */
  lemma CutsShort(cfg: Config, n: Node, b: Id, e: Entry) returns (n': Node)
    requires cfg.Valid() && n.id in cfg.voters && Near(n, 3) && n.term == 3 && |n.log| >= 2
    requires n.log[0] == FIRST && e.index == 2 && e.term != n.log[1].term
    ensures var m := App(b, n.id, 3, 1, 2, [e], 0);
      !Fatal(cfg, n, m) && Step(cfg, n, m, n', {AppResp(n.id, b, 3, 2, false, 0)})
    ensures Near(n', 3) && n'.term == 3 && n'.id == n.id && |n'.log| == 2
  {
    var m := App(b, n.id, 3, 1, 2, [e], 0);
    var n1 := n.(lead := b);
    n' := n1.(log := n.log[..1] + [e]);
    assert FindConflict(n.log, [e]) == 2;
    assert [e][0..] == [e];
    assert Accepted(n1, m) == n';
    assert HandleAppend(n1, m) == (n', {AppResp(n.id, b, 3, 2, false, 0)});
    assert NodeSpec.StepFollower(cfg, n, m, n', {AppResp(n.id, b, 3, 2, false, 0)});
  }

  lemma Throws(cfg: Config, n: Node, a: Id, k: nat)
    requires Near(n, 3) && n.term == 3 && |n.log| < k
    ensures Fatal(cfg, n, Heartbeat(a, n.id, 3, k))
  {
  }

  /** A follower without entries turns the first append of the longer log down. */
  lemma TurnsDown(cfg: Config, n: Node, a: Id) returns (n': Node)
    requires cfg.Valid() && n.id in cfg.voters && Fresh(n)
    ensures var m := App(a, n.id, 3, 2, 2, [LONGER[2]], 0);
      !Fatal(cfg, n, m) && Step(cfg, n, m, n', {AppResp(n.id, a, 3, 2, true, 0)})
    ensures Fresh(n') && n'.term == 3 && n'.id == n.id
  {
    var m := App(a, n.id, 3, 2, 2, [LONGER[2]], 0);
    var n1 := CatchUp(n, m);
    n' := n1.(lead := a);
    assert HandleAppend(n1.(lead := a), m) == (n', {AppResp(n.id, a, 3, 2, true, 0)});
    assert NodeSpec.StepFollower(cfg, n1, m, n', {AppResp(n.id, a, 3, 2, true, 0)});
  }

  /** Told so, the leader goes down to the beginning. */
  lemma GoesDown(cfg: Config, c: State, a: Id, x: Id) returns (c': State)
    requires WellFormed(cfg, c) && Reachable(cfg, c) && a in cfg.voters && x in cfg.voters && x != a
    requires Alone(c.nodes[a], a, 3, LONGER) && AppResp(x, a, 3, 2, true, 0) in c.net
    ensures WellFormed(cfg, c') && Reachable(cfg, c') && c'.nodes == c.nodes && c.net <= c'.net
    ensures App(a, x, 3, 0, 0, LONGER, 0) in c'.net
  {
    var n := c.nodes[a];
    var m := AppResp(x, a, 3, 2, true, 0);
    var out := {App(a, x, 3, 0, 0, LONGER, 0)};
    assert LeaderSends(cfg.voters, n, out) by {
      assert n.log[0..|n.log|] == n.log;
    }
    assert InWindow(c.net, n, App(a, x, 3, 0, 0, LONGER, 0)) by {
      assert m in c.net && Rejects(m, a, x, 3) && m.hint <= 0;
    }
    hide InWindow, LeaderSends, Alone, Reachable;
    assert StepLeader(cfg, n, m, n, out);
    assert Step(cfg, n, m, n, out);
    c' := Delivered(cfg, c, a, m, n, out);
    assert c'.nodes == c.nodes;
  }

  /** The first append of a leader that stood with two entries is what a fresh progress sends ... */
  lemma FirstProbe(a: Id, x: Id, size: nat)
    requires size >= 1
    ensures var p := Progress.FreshProg(0, 3, size);
      && RaftCore.Sends(p, App(a, x, 3, 2, 2, [LONGER[2]], 0), p.Sent(3))
    ensures var p := Progress.FreshProg(0, 2, size);
      && RaftCore.Sends(p, App(a, x, 3, 1, 2, [SHORTER[1]], 0), p.Sent(2))
  {
  }

  /** ... and the append after it has been turned down is what follows from the rejection. */
  lemma LowerProbe(a: Id, x: Id, size: nat)
    requires size >= 1
    ensures var p := Progress.FreshProg(0, 3, size).Sent(3).(active := true);
      && p.IsPaused() && p.Rejects(2)
      && RaftCore.Sends(p.Rejected(2, 0), App(a, x, 3, 0, 0, LONGER, 0), p.Rejected(2, 0).Sent(3))
  {
  }

  lemma LongIsTaken(n: Node)
    requires Fresh(n)
    ensures Near(n, 3) && n.log == [] && Takes(n.log, LONGER)
  {
  }

  /** Rejection, lower probe, acknowledgement. */
  lemma TakesLonger(cfg: Config, c: State, a: Id, x: Id) returns (c': State)
    requires WellFormed(cfg, c) && Reachable(cfg, c) && a in cfg.voters && x in cfg.voters && x != a
    requires Alone(c.nodes[a], a, 3, LONGER) && Fresh(c.nodes[x]) && App(a, x, 3, 2, 2, [LONGER[2]], 0) in c.net
    ensures OnlyNode(cfg, c, x, c') && AppResp(x, a, 3, 3, false, 0) in c'.net
    ensures var n' := c'.nodes[x]; Near(n', 3) && n'.term == 3 && n'.log == LONGER
  {
    hide Step, Fatal, Near, Takes, Fresh, Alone, Reachable;
    var n1 := TurnsDown(cfg, c.nodes[x], a);
    var c1 := Delivered(cfg, c, x, App(a, x, 3, 2, 2, [LONGER[2]], 0), n1, {AppResp(x, a, 3, 2, true, 0)});
    var c2 := GoesDown(cfg, c1, a, x);
    LongIsTaken(n1);
    var n2 := Appends(cfg, n1, a, 3, LONGER);
    c' := Delivered(cfg, c2, x, App(a, x, 3, 0, 0, LONGER, 0), n2, {AppResp(x, a, 3, 3, false, 0)});
  }

  lemma {:induction false} TakeAll(cfg: Config, c: State, a: Id, todo: set<Id>) returns (c': State)
    requires WellFormed(cfg, c) && Reachable(cfg, c) && a in cfg.voters && todo <= cfg.voters - {a}
    requires Alone(c.nodes[a], a, 3, LONGER)
    requires forall x | x in todo :: Fresh(c.nodes[x]) && App(a, x, 3, 2, 2, [LONGER[2]], 0) in c.net
    ensures WellFormed(cfg, c') && Reachable(cfg, c') && c.net <= c'.net
    ensures forall x | x in cfg.voters && x !in todo :: c'.nodes[x] == c.nodes[x]
    ensures forall x | x in todo ::
      && AppResp(x, a, 3, 3, false, 0) in c'.net
      && var n' := c'.nodes[x]; Near(n', 3) && n'.term == 3 && n'.log == LONGER
    decreases |todo|
  {
    if todo == {} {
      c' := c;
    } else {
      hide Near, Fresh, Alone, Reachable;
      var x :| x in todo;
      var c1 := TakesLonger(cfg, c, a, x);
      assert c1.nodes[a] == c.nodes[a];
      c' := TakeAll(cfg, c1, a, todo - {x});
      assert c'.nodes[x] == c1.nodes[x];
    }
  }

  /** A third node takes one leader's log, then the other's first append arrives. */
  lemma ThrowsAmongMany(cfg: Config, c: State, a: Id, b: Id) returns (c': State, x: Id)
    requires WellFormed(cfg, c) && Reachable(cfg, c) && Unequal(cfg, c, a, b) && |cfg.voters| >= 3
    ensures WellFormed(cfg, c') && Reachable(cfg, c') && CanThrow(cfg, c', x, Heartbeat(a, x, 3, 3))
  {
    hide Reachable, Near, Fresh, Takes, Hearing, OnlyNode, Step, Fatal, Alone, Quorum.IsQuorum, InWindow;
    assert |cfg.voters - {a, b}| == |cfg.voters| - 2;
    var q := SubsetOfSize(cfg.voters - {a, b}, Quorum.Size(cfg.voters) - 1);
    assert |q| > 0;
    x :| x in q;
    AloneIsHearing(c.nodes[a], a, 3, LONGER);
    var c2 := TakeAll(cfg, c, a, q);
    var n := c2.nodes[x];
    var c3 := MajorityHears(cfg, c2, a, LONGER, q, x);
    var c4 := BeatsOn(cfg, c3, a, x, LONGER, {a} + q);
    assert c4.nodes[x] == n;
    c' := CutAndThrow(cfg, c4, a, b, x);
  }

  lemma CutAndThrow(cfg: Config, c: State, a: Id, b: Id, x: Id) returns (c': State)
    requires WellFormed(cfg, c) && Reachable(cfg, c) && x in cfg.voters
    requires var n := c.nodes[x]; Near(n, 3) && n.term == 3 && n.log == LONGER
    requires App(b, x, 3, 1, 2, [SHORTER[1]], 0) in c.net && Heartbeat(a, x, 3, 3) in c.net
    ensures WellFormed(cfg, c') && Reachable(cfg, c') && CanThrow(cfg, c', x, Heartbeat(a, x, 3, 3))
  {
    hide Reachable, Near, Step, Fatal, InWindow;
    var n' := CutsShort(cfg, c.nodes[x], b, SHORTER[1]);
    c' := Delivered(cfg, c, x, App(b, x, 3, 1, 2, [SHORTER[1]], 0), n', {AppResp(x, b, 3, 2, false, 0)});
    Throws(cfg, n', a, 3);
  }

  lemma MajorityHears(cfg: Config, c: State, a: Id, log: seq<Entry>, q: set<Id>, x: Id) returns (c': State)
    requires WellFormed(cfg, c) && Reachable(cfg, c) && a in cfg.voters && q <= cfg.voters - {a} && x in q
    requires Hearing(c.nodes[a], a, 3, log, {a}) && |q| + 1 == Quorum.Size(cfg.voters)
    requires forall y | y in q :: AppResp(y, a, 3, |log|, false, 0) in c.net
    ensures WellFormed(cfg, c') && Reachable(cfg, c') && c.net <= c'.net
    ensures Hearing(c'.nodes[a], a, 3, log, {a} + q) && c'.nodes[a].commit == |log|
    ensures forall y | y in cfg.voters && y != a :: c'.nodes[y] == c.nodes[y]
  {
    hide Reachable, Hearing, OnlyNode;
    HearingFacts(c.nodes[a], a, 3, log, {a});
    var c1 := HearsAll(cfg, c, a, log, {a}, q - {x});
    OnlyNodeLeaves(cfg, c, a, c1);
    HearingFacts(c1.nodes[a], a, 3, log, {a} + (q - {x}));
    assert {a} + (q - {x}) + {x} == {a} + q && |{a} + q| == |q| + 1;
    c' := HearsAck(cfg, c1, a, log, {a} + (q - {x}), x, {});
    OnlyNodeLeaves(cfg, c1, a, c');
  }
}
