/**
 * What becomes of the logs once two nodes lead the same term (module PreVoteFlaw). Every step is
 * one the code takes: the leaders are proposed one entry each, one of them crashes and comes back
 * as a follower, a heartbeat gets the other's probes going again, its append is taken for the
 * entry that is already there, because only terms are compared, and both commit.
 */
module LogFlaw {
  import opened Proto
  import opened NodeSpec
  import opened Cluster
  import opened Election
  import opened PreVoteFlaw
  import opened SendWindow
  import Quorum

  /** What the two leaders put behind their first entry. */
  const MINE := Entry(Normal, 2, 2, [1])
  const YOURS := Entry(Normal, 2, 2, [2])

  // ---------------------------------------------------------------- one entry each

  /** Leader of a term that nobody else has acknowledged anything to. */
  predicate Alone(n: Node, id: Id, term: Term, log: seq<Entry>) {
    && n.id == id && n.role.Leader? && n.term == term && n.log == log && n.commit == 0
    && n.matched == map[id := |log|]
  }

  lemma TakesProposal(cfg: Config, n: Node, log: seq<Entry>, data: seq<Byte>) returns (n': Node, m: Message)
    requires cfg.Valid() && n.id in cfg.voters && |cfg.voters| >= 2 && Alone(n, n.id, n.term, log)
    ensures m == Prop(n.id, n.id, [Entry(Normal, 0, 0, data)]) && StepLeader(cfg, n, m, n', {})
    ensures Alone(n', n.id, n.term, log + [Entry(Normal, n.term, |log| + 1, data)])
  {
    var entries := [Entry(Normal, 0, 0, data)];
    m := Prop(n.id, n.id, entries);
    n' := AppendEntry(cfg.voters, n, entries);
    var log' := n.log + Stamp(n.term, |n.log|, entries);
    assert n.matched[n.id := |log'|] == map[n.id := |log'|];
    NothingBackedAlone(cfg.voters, n.id, |log'|);
    assert Screened(entries, entries);
  }

  /** A proposal, while every follower still has to answer its first append. */
  lemma Proposes(cfg: Config, c: State, i: Id, log: seq<Entry>, data: seq<Byte>) returns (c': State)
    requires WellFormed(cfg, c) && Reachable(cfg, c) && i in cfg.voters && |cfg.voters| >= 2
    requires Alone(c.nodes[i], i, c.nodes[i].term, log)
    ensures OnlyNode(cfg, c, i, c')
    ensures var term := c.nodes[i].term; Alone(c'.nodes[i], i, term, log + [Entry(Normal, term, |log| + 1, data)])
  {
    hide Reachable, StepLeader;
    var n', m := TakesProposal(cfg, c.nodes[i], log, data);
    assert Step(cfg, c.nodes[i], m, n', {});
    c' := Delivered(cfg, c, i, m, n', {});
  }

  lemma ComesBack(cfg: Config, c: State, i: Id) returns (c': State)
    requires WellFormed(cfg, c) && Reachable(cfg, c) && i in cfg.voters
    ensures OnlyNode(cfg, c, i, c') && c'.nodes[i] == Restarted(c.nodes[i], c.nodes[i].commit)
  {
    var n := c.nodes[i];
    c' := State(c.nodes[i := Restarted(n, n.commit)], c.net);
    assert Happens(cfg, c, Restart(i, n.commit), c');
    ReachNext(cfg, c, Restart(i, n.commit), c');
  }

  // ---------------------------------------------------------------- replication

  /** A follower of the leader's term, or of an earlier one, that has committed nothing. */
  predicate Near(n: Node, term: Term) {
    n.role.Follower? && 1 <= n.term <= term && n.commit == 0
  }

  /** All of the leader's log passes the follower's comparison of terms, or is new to it. */
  predicate Takes(log: seq<Entry>, entries: seq<Entry>) {
    && entries != [] && entries[0].index == 1 && entries[0].term > 0
    && (log == [] || FindConflict(log, entries) == 0)
  }

  lemma Beats(cfg: Config, c: State, b: Id) returns (c': State)
    requires WellFormed(cfg, c) && Reachable(cfg, c) && b in cfg.voters
    requires c.nodes[b].role.Leader? && c.nodes[b].commit == 0
    ensures WellFormed(cfg, c') && Reachable(cfg, c') && c'.nodes == c.nodes && c.net <= c'.net
    ensures forall x | x in cfg.voters && x != b :: Heartbeat(b, x, c.nodes[b].term, 0) in c'.net
  {
    var n := c.nodes[b];
    var out := Heartbeats(cfg.voters, n);
    assert StepLeader(cfg, n, Beat, n, out);
    assert Step(cfg, n, Beat, n, out);
    c' := Delivered(cfg, c, b, Beat, n, out);
    assert c'.nodes == c.nodes;
    forall x | x in cfg.voters && x != b ensures Heartbeat(b, x, n.term, 0) in out {
      assert Min(Quorum.Known(n.matched, x), n.commit) == 0;
    }
  }

  /** A follower hears of the leader. */
  lemma Hears(cfg: Config, n: Node, b: Id, term: Term) returns (n': Node)
    requires cfg.Valid() && n.id in cfg.voters && Near(n, term)
    ensures var m := Heartbeat(b, n.id, term, 0);
      !Fatal(cfg, n, m) && Step(cfg, n, m, n', {HeartbeatResp(n.id, b, term)})
    ensures Near(n', term) && n'.term == term && n'.log == n.log && n'.id == n.id
  {
    var m := Heartbeat(b, n.id, term, 0);
    var n1 := CatchUp(n, m);
    n' := n1.(lead := b);
    assert HandleHeartbeat(n1.(lead := b), m) == (n', {HeartbeatResp(n.id, b, term)});
    assert NodeSpec.StepFollower(cfg, n1, m, n', {HeartbeatResp(n.id, b, term)});
  }

  /** A follower takes the leader's log for its own. */
  lemma Appends(cfg: Config, n: Node, b: Id, term: Term, log: seq<Entry>) returns (n': Node)
    requires cfg.Valid() && n.id in cfg.voters && Near(n, term) && n.term == term && Takes(n.log, log)
    ensures var m := App(b, n.id, term, 0, 0, log, 0);
      !Fatal(cfg, n, m) && Step(cfg, n, m, n', {AppResp(n.id, b, term, |log|, false, 0)})
    ensures Near(n', term) && n'.term == term && n'.id == n.id && n'.log == if n.log == [] then log else n.log
  {
    hide FindConflict, Merge, Takes;
    var m := App(b, n.id, term, 0, 0, log, 0);
    var n1 := n.(lead := b);
    MergesAll(n.log, log);
    n' := n1.(log := if n.log == [] then log else n.log);
    assert Accepted(n1, m) == n';
    assert HandleAppend(n1, m) == (n', {AppResp(n.id, b, term, |log|, false, 0)});
    assert NodeSpec.StepFollower(cfg, n, m, n', {AppResp(n.id, b, term, |log|, false, 0)});
  }

  lemma MergesAll(log: seq<Entry>, entries: seq<Entry>)
    requires Takes(log, entries)
    ensures FindConflict(log, entries) == if log == [] then 1 else 0
    ensures Merge(log, 0, entries) == if log == [] then entries else log
    ensures |entries| > 0
  {
    if log == [] {
      assert entries[0..] == entries && [] + entries == entries;
    }
  }

  lemma ToldAgain(cfg: Config, c: State, b: Id, x: Id) returns (c': State)
    requires WellFormed(cfg, c) && Reachable(cfg, c) && b in cfg.voters && x in cfg.voters && x != b
    requires c.nodes[b].role.Leader? && c.nodes[b].commit == 0 && HeartbeatResp(x, b, c.nodes[b].term) in c.net
    requires TermAt(c.nodes[b].log, 1) == c.nodes[b].term >= 1
    ensures WellFormed(cfg, c') && Reachable(cfg, c') && c'.nodes == c.nodes && c.net <= c'.net
    ensures App(b, x, c.nodes[b].term, 0, 0, c.nodes[b].log, 0) in c'.net
  {
    var n := c.nodes[b];
    var m := HeartbeatResp(x, b, n.term);
    var out := {App(b, x, n.term, 0, 0, n.log, 0)};
    assert n.log[0..|n.log|] == n.log;
    assert LeaderSends(cfg.voters, n, out);
    assert StepLeader(cfg, n, m, n, out);
    assert Step(cfg, n, m, n, out);
    c' := Delivered(cfg, c, b, m, n, out);
    assert c'.nodes == c.nodes;
  }

  /** Heartbeat, answer, append, acknowledgement. */
  lemma Replicate(cfg: Config, c: State, b: Id, x: Id, log: seq<Entry>) returns (c': State)
    requires WellFormed(cfg, c) && Reachable(cfg, c) && b in cfg.voters && x in cfg.voters && x != b
    requires c.nodes[b].role.Leader? && c.nodes[b].commit == 0 && c.nodes[b].log == log && TermAt(log, 1) == c.nodes[b].term >= 1
    requires Near(c.nodes[x], c.nodes[b].term) && Takes(c.nodes[x].log, log)
    requires Heartbeat(b, x, c.nodes[b].term, 0) in c.net
    ensures OnlyNode(cfg, c, x, c') && AppResp(x, b, c.nodes[b].term, |log|, false, 0) in c'.net
    ensures var n, n' := c.nodes[x], c'.nodes[x];
      Near(n', c.nodes[b].term) && n'.term == c.nodes[b].term && n'.log == if n.log == [] then log else n.log
  {
    hide Step, Fatal, Near, Takes;
    var term := c.nodes[b].term;
    var n1 := Hears(cfg, c.nodes[x], b, term);
    var c1 := Delivered(cfg, c, x, Heartbeat(b, x, term, 0), n1, {HeartbeatResp(x, b, term)});
    var c2 := ToldAgain(cfg, c1, b, x);
    var n2 := Appends(cfg, n1, b, term, log);
    c' := Delivered(cfg, c2, x, App(b, x, term, 0, 0, log, 0), n2, {AppResp(x, b, term, |log|, false, 0)});
  }

  lemma {:induction false} ReplicateAll(cfg: Config, c: State, b: Id, log: seq<Entry>, todo: set<Id>) returns (c': State)
    requires WellFormed(cfg, c) && Reachable(cfg, c) && b in cfg.voters && todo <= cfg.voters - {b}
    requires c.nodes[b].role.Leader? && c.nodes[b].commit == 0 && c.nodes[b].log == log && TermAt(log, 1) == c.nodes[b].term >= 1
    requires forall x | x in todo ::
      Near(c.nodes[x], c.nodes[b].term) && Takes(c.nodes[x].log, log) && Heartbeat(b, x, c.nodes[b].term, 0) in c.net
    ensures WellFormed(cfg, c') && Reachable(cfg, c') && c.net <= c'.net
    ensures forall x | x in cfg.voters && x !in todo :: c'.nodes[x] == c.nodes[x]
    ensures forall x | x in todo ::
      && AppResp(x, b, c.nodes[b].term, |log|, false, 0) in c'.net
      && Near(c'.nodes[x], c.nodes[b].term) && c'.nodes[x].term == c.nodes[b].term
      && c'.nodes[x].log == if c.nodes[x].log == [] then log else c.nodes[x].log
    decreases |todo|
  {
    hide Reachable, Near, Takes, TermAt;
    if todo == {} {
      c' := c;
    } else {
      var x :| x in todo;
      var c1 := Replicate(cfg, c, b, x, log);
      assert c1.nodes[b] == c.nodes[b];
      c' := ReplicateAll(cfg, c1, b, log, todo - {x});
      assert c'.nodes[x] == c1.nodes[x];
    }
  }

  // ---------------------------------------------------------------- committing

  /** A leader to which some have acknowledged its whole log, and the others nothing. */
  ghost predicate Hearing(n: Node, id: Id, term: Term, log: seq<Entry>, heard: set<Id>) {
    && n.id == id && n.role.Leader? && n.term == term && n.log == log && log != [] && log[|log| - 1].term == term
    && (forall x :: x in n.matched <==> x in heard) && (forall x | x in heard :: n.matched[x] == |log|)
    && (n.commit == 0 || n.commit == |log|)
  }

  /** One acknowledgement more; with a majority of them the log is committed. */
  lemma Acknowledged(cfg: Config, n: Node, term: Term, log: seq<Entry>, heard: set<Id>, x: Id) returns (n': Node)
    requires cfg.Valid() && n.id in cfg.voters && Hearing(n, n.id, term, log, heard) && heard <= cfg.voters
    requires x in cfg.voters && x !in heard
    ensures n' == MaybeCommit(cfg.voters, n.(matched := n.matched[x := |log|]))
    ensures Hearing(n', n.id, term, log, heard + {x})
    ensures Quorum.IsQuorum(cfg.voters, heard + {x}) ==> n'.commit == |log|
  {
    var matched := n.matched[x := |log|];
    n' := MaybeCommit(cfg.voters, n.(matched := matched));
    AllOrNothing(cfg.voters, matched, heard + {x}, |log|);
  }

  lemma AllOrNothing(voters: set<Id>, matched: map<Id, nat>, heard: set<Id>, k: nat)
    requires voters != {} && heard <= voters && k > 0
    requires (forall x :: x in matched <==> x in heard) && (forall x | x in heard :: matched[x] == k)
    ensures Quorum.MajorityIndex(voters, matched) == if Quorum.IsQuorum(voters, heard) then k else 0
  {
    var l := Quorum.MajorityIndex(voters, matched);
    assert Quorum.Backers(voters, matched, k) == heard;
    if l > 0 {
      assert Quorum.Backers(voters, matched, l) <= heard;
      var j :| j in Quorum.Backers(voters, matched, l);
      Quorum.SubsetSize(Quorum.Backers(voters, matched, l), heard);
    }
    if Quorum.IsQuorum(voters, heard) {
      assert Quorum.Backed(voters, matched, k);
    }
  }

  lemma StepsAck(cfg: Config, n: Node, log: seq<Entry>, heard: set<Id>, x: Id, out: set<Message>) returns (n': Node)
    requires cfg.Valid() && n.id in cfg.voters && x in cfg.voters && x !in heard && heard <= cfg.voters
    requires Hearing(n, n.id, n.term, log, heard) && n.term > 0
    requires out == {} || (Quorum.IsQuorum(cfg.voters, heard + {x}) && x != n.id
                           && out == {App(n.id, x, n.term, |log|, n.term, [], |log|)})
    ensures Step(cfg, n, AppResp(x, n.id, n.term, |log|, false, 0), n', out)
    ensures Hearing(n', n.id, n.term, log, heard + {x})
    ensures Quorum.IsQuorum(cfg.voters, heard + {x}) ==> n'.commit == |log|
  {
    var m := AppResp(x, n.id, n.term, |log|, false, 0);
    n' := Acknowledged(cfg, n, n.term, log, heard, x);
    NotHeard(n, n.id, n.term, log, heard, x);
    HearingFacts(n, n.id, n.term, log, heard);
    HearingFacts(n', n.id, n.term, log, heard + {x});
    hide Hearing, MaybeCommit;
    assert log[|log|..|log|] == [];
    assert LeaderSends(cfg.voters, n', out);
    hide LeaderSends;
    assert StepLeader(cfg, n, m, n', out);
  }

  lemma HearsAck(cfg: Config, c: State, b: Id, log: seq<Entry>, heard: set<Id>, x: Id, out: set<Message>) returns (c': State)
    requires WellFormed(cfg, c) && Reachable(cfg, c) && b in cfg.voters && x in cfg.voters && x !in heard
    requires Hearing(c.nodes[b], b, c.nodes[b].term, log, heard) && heard <= cfg.voters && c.nodes[b].term > 0
    requires AppResp(x, b, c.nodes[b].term, |log|, false, 0) in c.net
    requires out == {} || (Quorum.IsQuorum(cfg.voters, heard + {x}) && x != b
                           && out == {App(b, x, c.nodes[b].term, |log|, c.nodes[b].term, [], |log|)})
    ensures OnlyNode(cfg, c, b, c') && out <= c'.net
    ensures Hearing(c'.nodes[b], b, c.nodes[b].term, log, heard + {x})
    ensures Quorum.IsQuorum(cfg.voters, heard + {x}) ==> c'.nodes[b].commit == |log|
  {
    hide Reachable, Step, Hearing, Quorum.IsQuorum;
    var n' := StepsAck(cfg, c.nodes[b], log, heard, x, out);
    HearingFacts(n', b, c.nodes[b].term, log, heard + {x});
    NewsFits(c.net, n', c.nodes[b].term, log, heard + {x}, x);
    c' := Delivered(cfg, c, b, AppResp(x, b, c.nodes[b].term, |log|, false, 0), n', out);
  }

  /** An append without entries goes to a follower that has acknowledged the log. */
  lemma NewsFits(net: set<Message>, n: Node, term: Term, log: seq<Entry>, heard: set<Id>, x: Id)
    requires Hearing(n, n.id, term, log, heard) && x in heard
    ensures InWindow(net, n, App(n.id, x, term, |log|, term, [], |log|))
  {
  }

  lemma NotHeard(n: Node, id: Id, term: Term, log: seq<Entry>, heard: set<Id>, x: Id)
    requires Hearing(n, id, term, log, heard) && x !in heard
    ensures Quorum.Known(n.matched, x) == 0
  {
  }

  lemma HearingFacts(n: Node, id: Id, term: Term, log: seq<Entry>, heard: set<Id>)
    requires Hearing(n, id, term, log, heard)
    ensures n.id == id && n.role.Leader? && n.term == term && n.log == log && |log| > 0
  {
  }

  lemma OnlyNodeMeans(cfg: Config, c: State, i: Id, c': State)
    requires OnlyNode(cfg, c, i, c')
    ensures WellFormed(cfg, c') && Reachable(cfg, c') && c.net <= c'.net
  {
  }

  lemma OnlyNodeItself(cfg: Config, c: State, i: Id)
    requires WellFormed(cfg, c) && Reachable(cfg, c)
    ensures OnlyNode(cfg, c, i, c)
  {
  }

  lemma OnlyNodeChains(cfg: Config, c: State, i: Id, c1: State, c2: State)
    requires OnlyNode(cfg, c, i, c1) && OnlyNode(cfg, c1, i, c2)
    ensures OnlyNode(cfg, c, i, c2)
  {
  }

  lemma {:induction false} HearsAll(cfg: Config, c: State, b: Id, log: seq<Entry>, heard: set<Id>, todo: set<Id>)
    returns (c': State)
    requires WellFormed(cfg, c) && Reachable(cfg, c) && b in cfg.voters && todo <= cfg.voters - heard
    requires Hearing(c.nodes[b], b, c.nodes[b].term, log, heard) && heard <= cfg.voters && c.nodes[b].term > 0
    requires forall x | x in todo :: AppResp(x, b, c.nodes[b].term, |log|, false, 0) in c.net
    ensures OnlyNode(cfg, c, b, c') && Hearing(c'.nodes[b], b, c.nodes[b].term, log, heard + todo)
    decreases |todo|
  {
    hide Hearing, Reachable, Quorum.IsQuorum, OnlyNode;
    if todo == {} {
      c' := c;
      assert heard + todo == heard;
      OnlyNodeItself(cfg, c, b);
    } else {
      var x :| x in todo;
      var c1 := HearsAck(cfg, c, b, log, heard, x, {});
      OnlyNodeMeans(cfg, c, b, c1);
      var rest, heard1 := todo - {x}, heard + {x};
      assert heard1 + rest == heard + todo;
      assert rest <= cfg.voters - heard1 && |rest| < |todo|;
      HearingFacts(c1.nodes[b], b, c.nodes[b].term, log, heard1);
      c' := HearsAll(cfg, c1, b, log, heard1, rest);
      OnlyNodeChains(cfg, c, b, c1, c');
    }
  }

  /** The follower learns that what it acknowledged is committed. */
  lemma Learns(cfg: Config, n: Node, b: Id, term: Term, k: nat) returns (n': Node)
    requires cfg.Valid() && n.id in cfg.voters && Near(n, term) && n.term == term && term > 0
    requires k == |n.log| > 0 && n.log[k - 1].term == term
    ensures var m := App(b, n.id, term, k, term, [], k);
      !Fatal(cfg, n, m) && Step(cfg, n, m, n', {AppResp(n.id, b, term, k, false, 0)})
    ensures n' == n.(lead := b, commit := k)
  {
    var m := App(b, n.id, term, k, term, [], k);
    var n1 := n.(lead := b);
    n' := n.(lead := b, commit := k);
    assert Accepted(n1, m) == n';
    assert HandleAppend(n1, m) == (n', {AppResp(n.id, b, term, k, false, 0)});
    assert NodeSpec.StepFollower(cfg, n, m, n', {AppResp(n.id, b, term, k, false, 0)});
  }

  // ---------------------------------------------------------------- two logs with one term at an index

  const OURS := [FIRST, MINE]
  const THEIRS := [FIRST, YOURS]

  /** Both leaders have taken a proposal: the same term at index 2, but not the same entry. */
  ghost predicate Torn(cfg: Config, c: State, a: Id, b: Id) {
    && a in cfg.voters && b in cfg.voters && a in c.nodes && b in c.nodes && a != b
    && Alone(c.nodes[a], a, 2, OURS) && Alone(c.nodes[b], b, 2, THEIRS)
    && forall x | x in cfg.voters && x != a && x != b :: x in c.nodes && Bare(c.nodes[x])
  }

  lemma TearsApart(cfg: Config) returns (c: State, a: Id, b: Id)
    requires cfg.Valid() && Exposed(cfg)
    ensures WellFormed(cfg, c) && Reachable(cfg, c) && Torn(cfg, c, a, b) && a in cfg.preVote
  {
    hide Reachable, Bare;
    var c0, x, y := RivalsArise(cfg);
    a, b := x, y;
    assert |cfg.voters| >= 2;
    var c1 := Proposes(cfg, c0, a, [FIRST], [1]);
    c := Proposes(cfg, c1, b, [FIRST], [2]);
    assert [FIRST] + [MINE] == OURS && [FIRST] + [YOURS] == THEIRS;
  }

  // ---------------------------------------------------------------- both entries committed

  /** r and a acknowledge to b what b has, and a has something else. */
  ghost predicate Split(cfg: Config, c: State, a: Id, b: Id, r: set<Id>) {
    && a in cfg.voters && b in cfg.voters && a in c.nodes && b in c.nodes && a != b
    && r <= cfg.voters - {a, b} && |r| + 2 == Quorum.Size(cfg.voters)
    && c.nodes[a].role.Follower? && c.nodes[a].term == 2 && c.nodes[a].log == OURS && c.nodes[a].commit == 2
    && c.nodes[b].role.Leader? && c.nodes[b].term == 2 && c.nodes[b].log == THEIRS && c.nodes[b].commit == 2
    && AppResp(a, b, 2, 2, false, 0) in c.net
    && forall x | x in r :: x in c.nodes && c.nodes[x].term == 2 && c.nodes[x].log == THEIRS
  }

  /** The same, before b has counted the answers. */
  ghost predicate Answered(cfg: Config, c: State, a: Id, b: Id, r: set<Id>) {
    && a in cfg.voters && b in cfg.voters && a in c.nodes && b in c.nodes && a != b
    && r <= cfg.voters - {a, b} && |r| + 2 == Quorum.Size(cfg.voters)
    && Near(c.nodes[a], 2) && c.nodes[a].term == 2 && c.nodes[a].log == OURS
    && Alone(c.nodes[b], b, 2, THEIRS)
    && AppResp(a, b, 2, 2, false, 0) in c.net
    && forall x | x in r ::
         && x in c.nodes && c.nodes[x].term == 2 && c.nodes[x].log == THEIRS && AppResp(x, b, 2, 2, false, 0) in c.net
  }

  lemma BothTake()
    ensures Takes(OURS, THEIRS) && Takes([], THEIRS)
  {
    assert THEIRS[1..] == [YOURS] && [YOURS][1..] == [];
    assert FindConflict(OURS, []) == 0 && FindConflict(OURS, [YOURS]) == 0;
  }

  lemma BareIsNear(n: Node)
    requires Bare(n)
    ensures Near(n, 2) && n.log == []
  {
  }

  lemma AllAnswer(cfg: Config, c: State, a: Id, b: Id, r: set<Id>) returns (c': State)
    requires WellFormed(cfg, c) && Reachable(cfg, c) && Torn(cfg, c, a, b)
    requires r <= cfg.voters - {a, b} && |r| + 2 == Quorum.Size(cfg.voters)
    ensures WellFormed(cfg, c') && Reachable(cfg, c') && Answered(cfg, c', a, b, r)
  {
    hide Reachable, Bare, Takes, OnlyNode;
    var c1 := ComesBack(cfg, c, a);
    OnlyNodeLeaves(cfg, c, a, c1);
    assert Near(c1.nodes[a], 2);
    hide Near;
    var c2 := Beats(cfg, c1, b);
    BothTake();
    forall x | x in r ensures Near(c2.nodes[x], 2) && c2.nodes[x].log == [] {
      BareIsNear(c.nodes[x]);
    }
    c' := ReplicateAll(cfg, c2, b, THEIRS, r + {a});
  }

  lemma OnlyNodeLeaves(cfg: Config, c: State, i: Id, c': State)
    requires OnlyNode(cfg, c, i, c')
    ensures WellFormed(cfg, c') && Reachable(cfg, c') && c.net <= c'.net
    ensures forall x | x in cfg.voters && x != i :: x in c.nodes && c'.nodes[x] == c.nodes[x]
  {
  }

  lemma AloneIsHearing(n: Node, id: Id, term: Term, log: seq<Entry>)
    requires Alone(n, id, term, log) && log != [] && log[|log| - 1].term == term
    ensures Hearing(n, id, term, log, {id})
  {
  }

  lemma BothCommit(cfg: Config, c: State, a: Id, b: Id, r: set<Id>) returns (c': State)
    requires WellFormed(cfg, c) && Reachable(cfg, c) && Answered(cfg, c, a, b, r)
    ensures WellFormed(cfg, c') && Reachable(cfg, c') && Split(cfg, c', a, b, r)
  {
    hide Reachable, Hearing, Near, OnlyNode, Step, Fatal, InWindow;
    AloneIsHearing(c.nodes[b], b, 2, THEIRS);
    var c1 := HearsAll(cfg, c, b, THEIRS, {b}, r);
    OnlyNodeLeaves(cfg, c, b, c1);
    HearingFacts(c1.nodes[b], b, 2, THEIRS, {b} + r);
    var told := App(b, a, 2, 2, 2, [], 2);
    QuorumOf(cfg.voters, a, b, r);
    var c2 := HearsAck(cfg, c1, b, THEIRS, {b} + r, a, {told});
    OnlyNodeLeaves(cfg, c1, b, c2);
    HearingFacts(c2.nodes[b], b, 2, THEIRS, {b} + r + {a});
    assert told in c2.net;
    c' := ToldCommit(cfg, c2, a, b);
    OnlyNodeLeaves(cfg, c2, a, c');
    assert forall x | x in r :: c'.nodes[x] == c.nodes[x];
  }

  lemma ToldCommit(cfg: Config, c: State, a: Id, b: Id) returns (c': State)
    requires WellFormed(cfg, c) && Reachable(cfg, c) && a in cfg.voters
    requires Near(c.nodes[a], 2) && c.nodes[a].term == 2 && c.nodes[a].log == OURS
    requires App(b, a, 2, 2, 2, [], 2) in c.net
    ensures OnlyNode(cfg, c, a, c')
    ensures var n := c'.nodes[a]; n.role.Follower? && n.term == 2 && n.log == OURS && n.commit == 2
  {
    hide Reachable, Step, Fatal, InWindow;
    var n' := Learns(cfg, c.nodes[a], b, 2, 2);
    c' := Delivered(cfg, c, a, App(b, a, 2, 2, 2, [], 2), n', {AppResp(a, b, 2, 2, false, 0)});
  }

  lemma QuorumOf(voters: set<Id>, a: Id, b: Id, r: set<Id>)
    requires a in voters && b in voters && a != b && r <= voters - {a, b} && |r| + 2 == Quorum.Size(voters)
    ensures Quorum.IsQuorum(voters, {b} + r + {a}) && {b} + r <= voters && a !in {b} + r
  {
    assert |{b} + r| == |r| + 1 && |{b} + r + {a}| == |{b} + r| + 1;
  }

  /** Every exposed configuration comes to commit two entries at one index. */
  lemma Splits(cfg: Config) returns (c: State, a: Id, b: Id, r: set<Id>)
    requires cfg.Valid() && Exposed(cfg)
    ensures WellFormed(cfg, c) && Reachable(cfg, c) && Split(cfg, c, a, b, r) && a in cfg.preVote
  {
    hide Reachable, Alone, Split, Answered;
    var c0, x, y := TearsApart(cfg);
    a, b := x, y;
    assert |cfg.voters - {a, b}| == |cfg.voters| - 2;
    r := SubsetOfSize(cfg.voters - {a, b}, Quorum.Size(cfg.voters) - 2);
    var c1 := AllAnswer(cfg, c0, a, b, r);
    c := BothCommit(cfg, c1, a, b, r);
  }

  // ---------------------------------------------------------------- a later leader without a committed entry

  /** a leads term 3 without the entry that b has committed in term 2. */
  ghost predicate Lacking(cfg: Config, c: State, a: Id, b: Id) {
    && a in cfg.voters && b in cfg.voters && a in c.nodes && b in c.nodes
    && c.nodes[a].role.Leader? && c.nodes[a].term == 3 && |c.nodes[a].log| >= 2 && c.nodes[a].log[1] == MINE
    && c.nodes[b].term == 2 && c.nodes[b].log == THEIRS && c.nodes[b].commit == 2
  }

  lemma LeadsAgain(cfg: Config, c: State, a: Id, b: Id, r: set<Id>) returns (c': State)
    requires WellFormed(cfg, c) && Reachable(cfg, c) && Split(cfg, c, a, b, r) && a in cfg.preVote
    requires cfg.Valid() && Exposed(cfg)
    ensures WellFormed(cfg, c') && Reachable(cfg, c') && Lacking(cfg, c', a, b)
  {
    hide Reachable, OnlyNode;
    var c1 := ComesBack(cfg, c, b);
    OnlyNodeLeaves(cfg, c, b, c1);
    var c2 := PreStandsUp(cfg, c1, a);
    OnlyNodeLeaves(cfg, c1, a, c2);
    var s := {b} + r;
    assert |s| == |r| + 1 && |cfg.voters| >= 2;
    assert LastTerm(OURS) == 2 && LastTerm(THEIRS) == 2;
    var c3 := GatherPreVotes(cfg, c2, a, 3, 2, 2, s);
    c' := RisesOnPreVotes(cfg, c3, a, s);
    OnlyNodeLeaves(cfg, c3, a, c');
    assert c'.nodes[a].log == OURS + [Entry(Normal, 3, 3, [])];
  }
}
