/**
 * What a node answers to each kind of message, and what becomes of it, in terms of the node and the
 * message alone (raft-kv/raft/raft.cpp:279-504, 787-1095): no lemma here names a part of NodeSpec.Step.
 * Where Theorems bounds what a step may do, this says what it must do.
 */
module Responses {
  import opened Proto
  import opened NodeSpec
  import LogMatching
  import Quorum

  // ---------------------------------------------------------------- vocabulary

  function Last(log: seq<Entry>): Term { if log == [] then 0 else log[|log| - 1].term }

  /** The log that ends at index in term t is not below this one. */
  predicate NotBelow(log: seq<Entry>, index: nat, t: Term) {
    t > Last(log) || (t == Last(log) && index >= |log|)
  }

  /** More than half of the voters. */
  predicate Majority(voters: set<Id>, k: nat) { 2 * k > |voters| }

  /** k is the first number that makes a majority. */
  predicate JustMajority(voters: set<Id>, k: nat) { k > 0 && Majority(voters, k) && !Majority(voters, k - 1) }

  /** A follower of term t under lead, with nothing left of what it counted before. */
  predicate StartsOver(n: Node, n': Node, t: Term, lead: Id) {
    && n'.id == n.id && n'.term == t && n'.role.Follower? && n'.lead == lead
    && n'.vote == (if t == n.term then n.vote else NONE)
    && n'.granted == {} && n'.refused == {} && n'.matched == map[n.id := |n.log|]
  }

  predicate SameLog(n: Node, n': Node) { n'.log == n.log && n'.commit == n.commit }

  /** A message of a leader that the node will hear: of its term, unless it leads that itself, or a later one. */
  predicate Hears(n: Node, m: Message)
    requires m.App? || m.Heartbeat? || m.Snap?
  {
    m.term > 0 && (m.term > n.term || (m.term == n.term && !n.role.Leader?))
  }

  /** The sender is the leader now; a follower that was one in this term only notes it. */
  predicate Acknowledges(n: Node, n': Node, from: Id, term: Term) {
    if n.role.Follower? && n.term == term
    then n'.id == n.id && n'.term == n.term && n'.role == n.role && n'.lead == from && n'.vote == n.vote
         && n'.granted == n.granted && n'.refused == n.refused
    else n'.id == n.id && n'.term == term && n'.role.Follower? && n'.lead == from
         && n'.vote == (if term == n.term then n.vote else NONE) && n'.granted == {} && n'.refused == {}
  }

  // ---------------------------------------------------------------- a leader's append

  /** All of ents is in the log, as far as terms tell. */
  ghost predicate HoldsAll(log: seq<Entry>, prev: nat, ents: seq<Entry>) {
    forall i | 0 <= i < |ents| :: prev + i < |log| && log[prev + i].term == ents[i].term
  }

  /** ents[k] is the first that the log does not hold. */
  ghost predicate FirstMissing(log: seq<Entry>, prev: nat, ents: seq<Entry>, k: nat) {
    && k < |ents| && HoldsAll(log, prev, ents[..k])
    && (prev + k < |log| ==> log[prev + k].term != ents[k].term)
  }

  /** The node's log has the entry the append follows on. */
  predicate FollowsOn(log: seq<Entry>, index: nat, t: Term) {
    t == if 1 <= index <= |log| then log[index - 1].term else 0
  }

  /** Whoever hears a leader is its follower before it handles the message. */
  lemma HeardAsFollower(cfg: Config, n: Node, m: Message, n': Node, out: set<Message>)
    requires cfg.Valid() && n.id in cfg.voters && Step(cfg, n, m, n', out) && (m.App? || m.Heartbeat? || m.Snap?) && Hears(n, m)
    ensures var x := if n.role.Follower? && n.term == m.term then n.(lead := m.from) else BecomeFollower(n, m.term, m.from);
      (n', out) == HandleFromLeader(x, m) && SameLog(n, x)
  {
    hide HandleFromLeader, StepLeader;
  }

  /** Every append that is heard is answered once. */
  lemma AppendAnswered(cfg: Config, n: Node, m: Message, n': Node, out: set<Message>)
    requires cfg.Valid() && n.id in cfg.voters && Step(cfg, n, m, n', out) && m.App? && Hears(n, m)
    ensures Acknowledges(n, n', m.from, m.term)
    ensures m.index < n.commit ==> SameLog(n, n') && out == {AppResp(n.id, m.from, m.term, n.commit, false, 0)}
    ensures m.index >= n.commit && !FollowsOn(n.log, m.index, m.logTerm) ==>
      SameLog(n, n') && out == {AppResp(n.id, m.from, m.term, m.index, true, |n.log|)}
    ensures m.index >= n.commit && FollowsOn(n.log, m.index, m.logTerm) ==>
      && out == {AppResp(n.id, m.from, m.term, m.index + |m.entries|, false, 0)}
      && n'.commit >= n.commit && n'.commit >= Min(m.commit, m.index + |m.entries|)
      && (n'.commit == n.commit || n'.commit == Min(m.commit, m.index + |m.entries|))
  {
    hide Step, Merge;
    HeardAsFollower(cfg, n, m, n', out);
  }

  /** And the log is cut at the first new entry that it does not hold, and nowhere else. */
  lemma {:induction false} AppendMerged(cfg: Config, n: Node, m: Message, n': Node, out: set<Message>)
    requires cfg.Valid() && n.id in cfg.voters && Step(cfg, n, m, n', out) && m.App? && Hears(n, m)
    requires m.index >= n.commit && FollowsOn(n.log, m.index, m.logTerm) && m.index <= |n.log|
    requires forall i | 0 <= i < |m.entries| :: m.entries[i].index == m.index + 1 + i && m.entries[i].term > 0
    ensures HoldsAll(n.log, m.index, m.entries) ==> n'.log == n.log
    ensures forall k: nat | FirstMissing(n.log, m.index, m.entries, k) ::
      m.index + k <= |n.log| && n'.log == n.log[..m.index + k] + m.entries[k..]
  {
    hide Step, Merge;
    HeardAsFollower(cfg, n, m, n', out);
    Merged(n.log, m.index, m.entries);
  }

  lemma {:induction false} Merged(log: seq<Entry>, prev: nat, ents: seq<Entry>)
    requires prev <= |log| && forall i | 0 <= i < |ents| :: ents[i].index == prev + 1 + i && ents[i].term > 0
    ensures HoldsAll(log, prev, ents) ==> Merge(log, prev, ents) == log
    ensures forall k: nat | FirstMissing(log, prev, ents, k) ::
      prev + k <= |log| && Merge(log, prev, ents) == log[..prev + k] + ents[k..]
  {
    if HoldsAll(log, prev, ents) {
      NothingMissing(log, prev, ents);
    }
    forall k: nat | FirstMissing(log, prev, ents, k)
      ensures prev + k <= |log| && Merge(log, prev, ents) == log[..prev + k] + ents[k..]
    {
      MissingIsConflict(log, prev, ents, k);
      hide HoldsAll, FirstMissing, FindConflict;
    }
  }

  lemma {:induction false} NothingMissing(log: seq<Entry>, prev: nat, ents: seq<Entry>)
    requires HoldsAll(log, prev, ents) && forall i | 0 <= i < |ents| :: ents[i].index == prev + 1 + i && ents[i].term > 0
    ensures FindConflict(log, ents) == 0
  {
    LogMatching.ConflictIsFirst(log, prev, ents);
    hide FindConflict;
  }

  lemma {:induction false} MissingIsConflict(log: seq<Entry>, prev: nat, ents: seq<Entry>, k: nat)
    requires FirstMissing(log, prev, ents, k) && prev <= |log|
    requires forall i | 0 <= i < |ents| :: ents[i].index == prev + 1 + i && ents[i].term > 0
    ensures FindConflict(log, ents) == prev + 1 + k && prev + k <= |log|
  {
    LogMatching.ConflictIsFirst(log, prev, ents);
    hide FindConflict;
    forall i | 0 <= i < k ensures prev + i < |log| && TermAt(log, prev + 1 + i) == ents[i].term {
      assert ents[..k][i] == ents[i];
    }
    if k > 0 {
      assert TermAt(log, prev + 1 + (k - 1)) == ents[k - 1].term;
    }
    var ci := FindConflict(log, ents);
    assert TermAt(log, prev + 1 + k) != ents[k].term;
    assert ci != 0;
    var j := ci - 1 - prev;
    assert TermAt(log, prev + 1 + j) != ents[j].term;
  }

  /** Nothing else answers an append with an acknowledgement: what is acknowledged is committed as far as the leader says. */
  lemma AckedIsCommitted(cfg: Config, n: Node, m: Message, n': Node, out: set<Message>, a: nat)
    requires cfg.Valid() && n.id in cfg.voters && Step(cfg, n, m, n', out) && m.App? && Hears(n, m)
    requires m.index >= n.commit && AppResp(n.id, m.from, m.term, a, false, 0) in out
    ensures n'.commit == Max(n.commit, Min(m.commit, a))
  {
    AppendAnswered(cfg, n, m, n', out);
  }

  // ---------------------------------------------------------------- a leader's heartbeat and snapshot

  lemma HeartbeatAnswered(cfg: Config, n: Node, m: Message, n': Node, out: set<Message>)
    requires cfg.Valid() && n.id in cfg.voters && Step(cfg, n, m, n', out) && m.Heartbeat? && Hears(n, m)
    ensures Acknowledges(n, n', m.from, m.term) && n'.log == n.log
    ensures out == {HeartbeatResp(n.id, m.from, m.term)}
    ensures n'.commit >= n.commit && n'.commit >= m.commit && (n'.commit == n.commit || n'.commit == m.commit)
  {
    hide Step;
    HeardAsFollower(cfg, n, m, n', out);
  }

  /** An old snapshot is ignored, one of what the log has commits it, any other replaces the log. */
  lemma SnapshotAnswered(cfg: Config, n: Node, m: Message, n': Node, out: set<Message>)
    requires cfg.Valid() && n.id in cfg.voters && Step(cfg, n, m, n', out) && m.Snap? && Hears(n, m)
    ensures Acknowledges(n, n', m.from, m.term) && out == {AppResp(n.id, m.from, m.term, 0, false, 0)}
    ensures m.index <= n.commit ==> SameLog(n, n')
    ensures m.index > n.commit ==> n'.commit == m.index
    ensures m.index > n.commit ==> n'.log == if FollowsOn(n.log, m.index, m.logTerm) then n.log else m.prefix
  {
    hide Step;
    HeardAsFollower(cfg, n, m, n', out);
  }

  /** A leader of the same term hears neither. */
  lemma RivalIgnored(cfg: Config, n: Node, m: Message, n': Node, out: set<Message>)
    requires cfg.Valid() && n.id in cfg.voters && Step(cfg, n, m, n', out)
    requires (m.App? || m.Heartbeat? || m.Snap?) && n.role.Leader? && m.term == n.term
    ensures n' == n && out == {}
  {
  }

  // ---------------------------------------------------------------- requests for votes

  /** The node is in touch with a leader, and the request is not part of a leadership transfer. */
  predicate Leased(cfg: Config, n: Node, m: Message)
    requires m.Vote? || m.PreVote?
  {
    cfg.checkQuorum && n.lead != NONE && (m.PreVote? || !m.force)
  }

  /** The node may still choose: it has voted like that before, or has neither voted nor met a leader. */
  predicate Open(n: Node, from: Id) { n.vote == from || (n.vote == NONE && n.lead == NONE) }

  /** A request of the node's own term: granted exactly if the node may choose and the log is not below its own. */
  lemma VoteAnswered(cfg: Config, n: Node, m: Message, n': Node, out: set<Message>)
    requires cfg.Valid() && n.id in cfg.voters && Step(cfg, n, m, n', out) && m.Vote? && m.term == n.term > 0
    ensures Open(n, m.from) && NotBelow(n.log, m.index, m.logTerm) ==>
      n' == n.(vote := m.from) && out == {VoteResp(n.id, m.from, n.term, false)}
    ensures !(Open(n, m.from) && NotBelow(n.log, m.index, m.logTerm)) ==> n' == n && out == {VoteResp(n.id, m.from, n.term, true)}
  {
  }

  /** Once it knows a leader in this term, or has voted for somebody else, a node votes for nobody more. */
  lemma NoSecondThoughts(cfg: Config, n: Node, m: Message, n': Node, out: set<Message>)
    requires cfg.Valid() && n.id in cfg.voters && Step(cfg, n, m, n', out) && m.Vote? && m.term == n.term > 0
    requires n.vote != m.from && (n.lead != NONE || n.vote != NONE)
    ensures n'.vote == n.vote && VoteResp(n.id, m.from, n.term, true) in out
    ensures VoteResp(n.id, m.from, n.term, false) !in out
  {
    VoteAnswered(cfg, n, m, n', out);
  }

  /** A request of a later term: the node enters it, and grants exactly if the log is not below its own. */
  lemma LaterVoteAnswered(cfg: Config, n: Node, m: Message, n': Node, out: set<Message>)
    requires cfg.Valid() && n.id in cfg.voters && Step(cfg, n, m, n', out) && m.Vote? && m.term > n.term && m.from != NONE
    requires !(n' == n && out == {} && Leased(cfg, n, m))
    ensures SameLog(n, n') && StartsOver(n, n'.(vote := NONE), m.term, NONE)
    ensures NotBelow(n.log, m.index, m.logTerm) ==> n'.vote == m.from && out == {VoteResp(n.id, m.from, m.term, false)}
    ensures !NotBelow(n.log, m.index, m.logTerm) ==> n'.vote == NONE && out == {VoteResp(n.id, m.from, m.term, true)}
  {
  }

  /** A pre-vote changes nothing; one for a later term asks only for the log. */
  lemma PreVoteAnswered(cfg: Config, n: Node, m: Message, n': Node, out: set<Message>)
    requires cfg.Valid() && n.id in cfg.voters && Step(cfg, n, m, n', out) && m.PreVote? && m.term > 0
    requires !(out == {} && m.term > n.term && Leased(cfg, n, m))
    ensures n' == n
    ensures var granted := m.term >= n.term && (m.term > n.term || Open(n, m.from)) && NotBelow(n.log, m.index, m.logTerm);
      out == {if granted then PreVoteResp(n.id, m.from, m.term, false) else PreVoteResp(n.id, m.from, n.term, true)}
  {
  }

  /** A request is passed over in silence exactly when the lease allows it, or it is a vote of an older term. */
  lemma SilenceMeansLease(cfg: Config, n: Node, m: Message)
    requires cfg.Valid() && n.id in cfg.voters && (m.Vote? || m.PreVote?) && m.term > 0
    ensures Step(cfg, n, m, n, {}) <==> (m.term > n.term && Leased(cfg, n, m)) || (m.term < n.term && m.Vote?)
  {
  }

  // ---------------------------------------------------------------- older and newer terms

  /** From an older term only a leader, or who asks for a pre-vote, gets an answer; it carries the newer term. */
  lemma StaleAnswered(cfg: Config, n: Node, m: Message, n': Node, out: set<Message>)
    requires cfg.Valid() && n.id in cfg.voters && Step(cfg, n, m, n', out) && !m.Local() && !m.Prop? && 0 < m.term < n.term
    ensures n' == n
    ensures m.App? || m.Heartbeat? ==>
      out == if cfg.checkQuorum || n.id in cfg.preVote then {AppResp(n.id, m.from, n.term, 0, false, 0)} else {}
    ensures m.PreVote? ==> out == {PreVoteResp(n.id, m.from, n.term, true)}
    ensures !m.App? && !m.Heartbeat? && !m.PreVote? ==> out == {}
  {
  }

  /** An answer from a later term, other than a granted pre-vote, ends whatever the node was doing. */
  lemma LaterAnswerHeeded(cfg: Config, n: Node, m: Message, n': Node, out: set<Message>)
    requires cfg.Valid() && n.id in cfg.voters && Step(cfg, n, m, n', out)
    requires m.AppResp? || m.HeartbeatResp? || m.VoteResp? || (m.PreVoteResp? && m.reject)
    requires m.term > n.term
    ensures StartsOver(n, n', m.term, NONE) && SameLog(n, n') && out == {}
  {
  }

  /** Answers to nothing that is being asked are ignored. */
  lemma UnaskedIgnored(cfg: Config, n: Node, m: Message, n': Node, out: set<Message>)
    requires cfg.Valid() && n.id in cfg.voters && Step(cfg, n, m, n', out)
    requires (m.VoteResp? && m.term == n.term) || (m.PreVoteResp? && (m.term == n.term || (m.term > n.term && !m.reject)))
    requires n.role.Follower? || n.role.Leader?
    ensures n' == n && out == {}
  {
  }

  // ---------------------------------------------------------------- standing for election

  /** One request to every other voter, with the last index and term of the log. */
  ghost predicate AsksAll(voters: set<Id>, n: Node, term: Term, pre: bool, force: bool, out: set<Message>) {
    && (forall j | j in voters && j != n.id ::
          (if pre then PreVote(n.id, j, term, |n.log|, Last(n.log)) else Vote(n.id, j, term, |n.log|, Last(n.log), force)) in out)
    && (forall x | x in out ::
          && (if pre then x.PreVote? else x.Vote? && x.force == force)
          && x.from == n.id && x.to in voters && x.to != n.id && x.term == term && x.index == |n.log| && x.logTerm == Last(n.log))
  }

  /** A candidate of the next term that has voted for itself, and knows no leader. */
  ghost predicate Stands(n: Node, n': Node) {
    && n'.id == n.id && n'.term == n.term + 1 && n'.role.Candidate? && n'.vote == n.id && n'.lead == NONE
    && n'.granted == {n.id} && n'.refused == {} && n'.matched == map[n.id := |n.log|] && SameLog(n, n')
  }

  /** A new leader: its log one empty entry longer, itself known to hold it, nobody else to hold anything. */
  ghost predicate Reigns(n: Node, n': Node, term: Term) {
    && n'.id == n.id && n'.term == term && n'.role.Leader? && n'.lead == n.id
    && n'.vote == (if term == n.term then n.vote else n.id)
    && n'.granted == {} && n'.refused == {}
    && n'.log == n.log + [Entry(Normal, term, |n.log| + 1, [])]
    && n'.matched == map[n.id := |n.log| + 1]
  }

  /** The campaign of a sole voter is its election, and its empty entry is committed at once. */
  lemma SoleVoterLeads(voters: set<Id>, n: Node, force: bool)
    requires voters == {n.id} && n.commit <= |n.log|
    ensures var r := Campaign(voters, n, force);
      Reigns(n, r.0, n.term + 1) && r.0.commit == |r.0.log| && r.1 == {}
  {
    var c := Poll(BecomeCandidate(n), n.id, true);
    assert c.granted == {n.id};
    var log := c.log + Stamp(c.term, |c.log|, [NOOP]);
    var matched := map[n.id := |log|];
    assert map[n.id := |c.log|][n.id := |log|] == matched;
    assert Quorum.Backers(voters, matched, |log|) == {n.id};
    forall k: nat | Quorum.Backed(voters, matched, k) ensures k <= |log| {
      OwnOnly(n.id, |log|, k);
    }
    assert Quorum.MajorityIndex(voters, matched) == |log|;
  }

  lemma OwnOnly(i: Id, last: nat, k: nat)
    ensures Quorum.Backed({i}, map[i := last], k) ==> k <= last
  {
    if k > last {
      assert Quorum.Backers({i}, map[i := last], k) == {};
    }
  }

  lemma SeveralStand(voters: set<Id>, n: Node, force: bool)
    requires n.id in voters && |voters| >= 2
    ensures var r := Campaign(voters, n, force);
      Stands(n, r.0) && AsksAll(voters, n, n.term + 1, false, force, r.1)
  {
    var c := Poll(BecomeCandidate(n), n.id, true);
    assert c.granted == {n.id};
  }

  lemma OneOrMore(voters: set<Id>, i: Id)
    requires i in voters
    ensures |voters| == 1 <==> voters == {i}
    ensures |voters| >= 1
  {
    if |voters| == 1 {
      assert |voters - {i}| == 0;
    }
  }

  /** What comes of an election timeout: an election, real or for trial, or waiting for a configuration change. */
  lemma TimeoutAnswered(cfg: Config, n: Node, m: Message, n': Node, out: set<Message>)
    requires cfg.Valid() && n.id in cfg.voters && Step(cfg, n, m, n', out) && m.Hup? && n.commit <= |n.log|
    requires !(n' == n && out == {} && exists e :: e in n.log && e.kind.ConfChange?)
    ensures n.role.Leader? ==> n' == n && out == {}
    ensures !n.role.Leader? && |cfg.voters| == 1 ==> Reigns(n, n', n.term + 1) && n'.commit == |n'.log| && out == {}
    ensures !n.role.Leader? && |cfg.voters| >= 2 && n.id in cfg.preVote ==>
      && n' == n.(role := PreCandidate, lead := NONE, granted := {n.id}, refused := {})
      && AsksAll(cfg.voters, n, n.term + 1, true, false, out)
    ensures !n.role.Leader? && |cfg.voters| >= 2 && n.id !in cfg.preVote ==>
      Stands(n, n') && AsksAll(cfg.voters, n, n.term + 1, false, false, out)
  {
    assert StepHup(cfg, n, n', out);
    hide Step, Campaign, Reigns, Stands, AsksAll;
    OneOrMore(cfg.voters, n.id);
    if |cfg.voters| == 1 {
      SoleVoterLeads(cfg.voters, n, false);
      var p := Poll(BecomePreCandidate(n), n.id, true);
      assert p.granted == {n.id};
      SoleVoterLeads(cfg.voters, p, false);
      ReignsFrom(n, p, Campaign(cfg.voters, p, false).0);
    } else {
      SeveralStand(cfg.voters, n, false);
      var p := Poll(BecomePreCandidate(n), n.id, true);
      assert p.granted == {n.id};
      AsksForPreVotes(cfg.voters, n, p);
    }
  }

  lemma AsksForPreVotes(voters: set<Id>, n: Node, p: Node)
    requires p.id == n.id && p.term == n.term && p.log == n.log
    ensures AsksAll(voters, n, n.term + 1, true, false, PreVoteRequests(voters, p))
  {
  }

  lemma ReignsFrom(n: Node, p: Node, n': Node)
    requires p.id == n.id && p.term == n.term && p.log == n.log && Reigns(p, n', n.term + 1)
    ensures Reigns(n, n', n.term + 1)
  {
  }

  /** The heir of a leader stands at once, without a pre-vote, and its requests are not held up by a lease. */
  lemma HeirStands(cfg: Config, n: Node, m: Message, n': Node, out: set<Message>)
    requires cfg.Valid() && n.id in cfg.voters && Step(cfg, n, m, n', out) && m.TimeoutNow? && m.term == n.term > 0
    requires n.commit <= |n.log|
    ensures n.role.Follower? && |cfg.voters| >= 2 ==> Stands(n, n') && AsksAll(cfg.voters, n, n.term + 1, false, true, out)
    ensures n.role.Follower? && |cfg.voters| == 1 ==> Reigns(n, n', n.term + 1) && n'.commit == |n'.log| && out == {}
    ensures !n.role.Follower? ==> n' == n && out == {}
  {
    hide Campaign, Reigns, Stands, AsksAll;
    OneOrMore(cfg.voters, n.id);
    if |cfg.voters| == 1 {
      SoleVoterLeads(cfg.voters, n, true);
    } else {
      SeveralStand(cfg.voters, n, true);
    }
  }

  /** Told so in a later term, a node enters that first. */
  lemma LaterHeirStands(cfg: Config, n: Node, m: Message, n': Node, out: set<Message>)
    requires cfg.Valid() && n.id in cfg.voters && Step(cfg, n, m, n', out) && m.TimeoutNow? && m.term > n.term
    requires |cfg.voters| >= 2
    ensures n'.id == n.id && n'.term == m.term + 1 && n'.role.Candidate? && n'.vote == n.id && n'.lead == NONE
    ensures n'.granted == {n.id} && n'.refused == {} && SameLog(n, n') && AsksAll(cfg.voters, n, m.term + 1, false, true, out)
  {
    hide Campaign;
    SeveralStand(cfg.voters, BecomeFollower(n, m.term, NONE), true);
  }

  // ---------------------------------------------------------------- counting the answers

  /** An answer that is counted: of the term that is being asked for, of either type unless guarded. */
  predicate Counted(cfg: Config, n: Node, m: Message) {
    && (n.role.Candidate? || n.role.PreCandidate?)
    && (|| (m.VoteResp? && m.term == n.term && (cfg.guarded ==> n.role.Candidate?))
        || (m.PreVoteResp? && (m.term == n.term || (m.term > n.term && !m.reject)) && (cfg.guarded ==> n.role.PreCandidate?)))
  }

  /** Who has granted, once the first answer of the sender is counted. */
  function Grants(n: Node, from: Id, reject: bool): set<Id> {
    if reject || from in n.refused then n.granted else n.granted + {from}
  }

  function Refusals(n: Node, from: Id, reject: bool): set<Id> {
    if !reject || from in n.granted then n.refused else n.refused + {from}
  }

  /** What is counted goes to the tally, and the tally decides. */
  lemma CountIsAll(cfg: Config, n: Node, m: Message, n': Node, out: set<Message>)
    requires cfg.Valid() && n.id in cfg.voters && Step(cfg, n, m, n', out) && m.TermField() > 0 && Counted(cfg, n, m)
    ensures CountVote(cfg, n, m.from, !m.reject, n', out)
    ensures Poll(n, m.from, !m.reject) == n.(granted := Grants(n, m.from, m.reject), refused := Refusals(n, m.from, m.reject))
    ensures forall k: nat :: Quorum.Size(cfg.voters) == k <==> JustMajority(cfg.voters, k)
  {
    hide CountVote, Poll;
    CountMeans(cfg, n, m);
  }

  /** With a majority of refusals the election is lost: a follower of the same term, without a leader, that counts nothing. */
  lemma ElectionLost(cfg: Config, n: Node, m: Message, n': Node, out: set<Message>)
    requires cfg.Valid() && n.id in cfg.voters && Step(cfg, n, m, n', out) && m.TermField() > 0 && Counted(cfg, n, m)
    requires JustMajority(cfg.voters, |Refusals(n, m.from, m.reject)|)
    requires !JustMajority(cfg.voters, |Grants(n, m.from, m.reject)|)
    ensures StartsOver(n, n', n.term, NONE) && SameLog(n, n') && out == {}
  {
    CountIsAll(cfg, n, m, n', out);
    hide Step, Campaign, BecomeLeader, LeaderSends, Counted;
  }

  /** With neither majority the answer is noted, and that is all. */
  lemma ElectionGoesOn(cfg: Config, n: Node, m: Message, n': Node, out: set<Message>)
    requires cfg.Valid() && n.id in cfg.voters && Step(cfg, n, m, n', out) && m.TermField() > 0 && Counted(cfg, n, m)
    requires !JustMajority(cfg.voters, |Refusals(n, m.from, m.reject)|)
    requires !JustMajority(cfg.voters, |Grants(n, m.from, m.reject)|)
    ensures n' == n.(granted := Grants(n, m.from, m.reject), refused := Refusals(n, m.from, m.reject)) && out == {}
  {
    CountIsAll(cfg, n, m, n', out);
    hide Step, Campaign, BecomeLeader, LeaderSends, Counted;
  }

  lemma CountMeans(cfg: Config, n: Node, m: Message)
    requires Counted(cfg, n, m)
    ensures Poll(n, m.from, !m.reject) == n.(granted := Grants(n, m.from, m.reject), refused := Refusals(n, m.from, m.reject))
    ensures forall k: nat :: Quorum.Size(cfg.voters) == k <==> JustMajority(cfg.voters, k)
  {
    if m.from in n.granted {
      assert n.granted + {m.from} == n.granted;
    }
    if m.from in n.refused {
      assert n.refused + {m.from} == n.refused;
    }
  }

  /** With a majority of grants a pre-candidate stands for election, and a candidate leads. */
  lemma ElectionWon(cfg: Config, n: Node, m: Message, n': Node, out: set<Message>)
    requires cfg.Valid() && n.id in cfg.voters && Step(cfg, n, m, n', out) && m.TermField() > 0 && Counted(cfg, n, m)
    requires n.commit <= |n.log| && JustMajority(cfg.voters, |Grants(n, m.from, m.reject)|)
    ensures n.role.Candidate? ==> Reigns(n, n', n.term)
    ensures n.role.Candidate? && |cfg.voters| >= 2 ==> n'.commit == n.commit
    ensures n.role.PreCandidate? && |cfg.voters| >= 2 ==>
      Stands(n, n') && AsksAll(cfg.voters, n, n.term + 1, false, false, out)
    ensures n.role.PreCandidate? && |cfg.voters| == 1 ==> Reigns(n, n', n.term + 1) && n'.commit == |n'.log| && out == {}
  {
    CountIsAll(cfg, n, m, n', out);
    hide Step, Campaign, Reigns, Stands, AsksAll, BecomeLeader, LeaderSends, Counted;
    OneOrMore(cfg.voters, n.id);
    var p := Poll(n, m.from, !m.reject);
    Crowned(cfg.voters, n, p);
    if |cfg.voters| == 1 {
      SoleVoterLeads(cfg.voters, p, false);
    } else {
      SeveralStand(cfg.voters, p, false);
    }
    PollKeeps(cfg.voters, n, p, n', out);
  }

  lemma Crowned(voters: set<Id>, n: Node, p: Node)
    requires n.id in voters && p.id == n.id && p.term == n.term && p.vote == n.vote && SameLog(n, p)
    ensures Reigns(n, BecomeLeader(voters, p), n.term)
    ensures |voters| >= 2 ==> BecomeLeader(voters, p).commit == n.commit
  {
    var log := p.log + Stamp(p.term, |p.log|, [NOOP]);
    var matched := map[n.id := |log|];
    assert map[n.id := |p.log|][n.id := |log|] == matched;
    if |voters| >= 2 {
      var k := Quorum.MajorityIndex(voters, matched);
      if k > 0 {
        Quorum.SubsetSize(Quorum.Backers(voters, matched, k), {n.id});
      }
    }
  }

  lemma PollKeeps(voters: set<Id>, n: Node, p: Node, n': Node, out: set<Message>)
    requires p.id == n.id && p.term == n.term && SameLog(n, p)
    ensures Stands(p, n') ==> Stands(n, n')
    ensures AsksAll(voters, p, n.term + 1, false, false, out) ==> AsksAll(voters, n, n.term + 1, false, false, out)
    ensures Reigns(p, n', n.term + 1) ==> Reigns(n, n', n.term + 1)
  {
  }

  // ---------------------------------------------------------------- proposals away from the leader

  /** A candidate drops a proposal; a follower drops it or passes it on to the leader it knows. */
  lemma ProposalElsewhere(cfg: Config, n: Node, m: Message, n': Node, out: set<Message>)
    requires cfg.Valid() && n.id in cfg.voters && Step(cfg, n, m, n', out) && m.Prop? && !n.role.Leader?
    ensures n' == n
    ensures out == {} || (n.role.Follower? && n.lead != NONE && out == {Prop(n.id, n.lead, m.entries)})
  {
  }

  // ---------------------------------------------------------------- what a leader does

  /** How many voters are known to hold the log through k. */
  ghost function Holders(voters: set<Id>, matched: map<Id, nat>, k: nat): set<Id> {
    set j | j in voters && (if j in matched then matched[j] else 0) >= k
  }

  /** k is the greatest index a majority is known to hold. */
  ghost predicate Reached(voters: set<Id>, matched: map<Id, nat>, k: nat) {
    Majority(voters, |Holders(voters, matched, k)|) && !Majority(voters, |Holders(voters, matched, k + 1)|)
  }

  /** There always is such an index. */
  lemma SomethingIsReached(voters: set<Id>, matched: map<Id, nat>) returns (k: nat)
    requires voters != {}
    ensures Reached(voters, matched, k)
  {
    k := Quorum.MajorityIndex(voters, matched);
    assert Holders(voters, matched, k) == Quorum.Backers(voters, matched, k);
    assert Holders(voters, matched, k + 1) == Quorum.Backers(voters, matched, k + 1);
    assert Quorum.Backed(voters, matched, k) && !Quorum.Backed(voters, matched, k + 1);
  }

  /** A leader commits the greatest index a majority holds if that is new and its entry of the leader's term, and nothing else. */
  ghost predicate CommitsWhatIsReached(voters: set<Id>, was: nat, n': Node) {
    forall k: nat | Reached(voters, n'.matched, k) ::
      n'.commit == if was < k <= |n'.log| && n'.log[k - 1].term == n'.term then k else was
  }

  lemma ReachedIsMajorityIndex(voters: set<Id>, matched: map<Id, nat>, k: nat)
    requires voters != {} && Reached(voters, matched, k)
    ensures Quorum.MajorityIndex(voters, matched) == k
  {
    var l := Quorum.MajorityIndex(voters, matched);
    assert Holders(voters, matched, k) == Quorum.Backers(voters, matched, k);
    assert Holders(voters, matched, k + 1) == Quorum.Backers(voters, matched, k + 1);
    assert Quorum.Backed(voters, matched, k) && !Quorum.Backed(voters, matched, k + 1);
    if k < l {
      Quorum.BackedIsDownwardClosed(voters, matched, l, k + 1);
    }
  }

  lemma CommitRule(voters: set<Id>, n: Node)
    requires voters != {} && n.term > 0
    ensures CommitsWhatIsReached(voters, n.commit, MaybeCommit(voters, n))
  {
    forall k: nat | Reached(voters, n.matched, k) ensures Quorum.MajorityIndex(voters, n.matched) == k {
      ReachedIsMajorityIndex(voters, n.matched, k);
    }
  }

  /** The periodic heartbeat: to every other voter, with as much of the commit index as it is known to hold. */
  lemma BeatSent(cfg: Config, n: Node, m: Message, n': Node, out: set<Message>)
    requires cfg.Valid() && n.id in cfg.voters && Step(cfg, n, m, n', out) && m.Beat?
    ensures n' == n && (!n.role.Leader? ==> out == {})
    ensures n.role.Leader? ==>
      && (forall j | j in cfg.voters && j != n.id ::
            Heartbeat(n.id, j, n.term, Min(if j in n.matched then n.matched[j] else 0, n.commit)) in out)
      && (forall x | x in out :: x.Heartbeat? && x.to in cfg.voters && x.to != n.id
            && x == Heartbeat(n.id, x.to, n.term, Min(if x.to in n.matched then n.matched[x.to] else 0, n.commit)))
  {
  }

  /** A leader that has lost touch gives up its office, not its term. */
  lemma QuorumChecked(cfg: Config, n: Node, m: Message, n': Node, out: set<Message>)
    requires cfg.Valid() && n.id in cfg.voters && Step(cfg, n, m, n', out) && m.CheckQuorum?
    ensures out == {} && (n' == n || (n.role.Leader? && StartsOver(n, n', n.term, NONE) && SameLog(n, n')))
  {
  }

  /** What of its log a leader sends, and from where: nothing that it does not have, and always with its own commit index. */
  ghost predicate SentBy(voters: set<Id>, n: Node, x: Message) {
    && (x.App? || x.Snap? || x.TimeoutNow?) && x.from == n.id && x.to in voters && x.to != n.id && x.term == n.term
    && (x.App? ==>
          && x.index + |x.entries| <= |n.log| && x.commit == n.commit && FollowsOn(n.log, x.index, x.logTerm)
          && forall i | 0 <= i < |x.entries| :: x.entries[i] == n.log[x.index + i])
    && (x.Snap? ==>
          && 0 < x.index <= n.commit && x.index == |x.prefix| <= |n.log| && FollowsOn(n.log, x.index, x.logTerm)
          && forall i | 0 <= i < |x.prefix| :: x.prefix[i] == n.log[i])
  }

  lemma MaySendMeans(voters: set<Id>, n: Node, out: set<Message>)
    requires LeaderSends(voters, n, out)
    ensures forall x | x in out :: SentBy(voters, n, x)
  {
    forall x | x in out ensures SentBy(voters, n, x) {
      assert LeaderMay(voters, n, x);
    }
  }

  /** News from a follower is noted and may commit; what is no news changes nothing. */
  lemma AckCounted(cfg: Config, n: Node, m: Message, n': Node, out: set<Message>)
    requires cfg.Valid() && n.id in cfg.voters && Step(cfg, n, m, n', out) && m.AppResp? && n.role.Leader? && m.term == n.term > 0
    ensures forall x | x in out :: SentBy(cfg.voters, n', x)
    ensures var known := if m.from in n.matched then n.matched[m.from] else 0;
      if m.from !in cfg.voters || m.reject || m.index <= known then n' == n
      else n' == n.(matched := n.matched[m.from := m.index], commit := n'.commit)
           && CommitsWhatIsReached(cfg.voters, n.commit, n')
  {
    hide MaybeCommit, LeaderMay, LeaderSends;
    assert StepLeader(cfg, n, m, n', out);
    hide Step;
    if m.from in cfg.voters && !m.reject {
      CommitRule(cfg.voters, n.(matched := n.matched[m.from := m.index]));
      CommitIsAll(cfg.voters, n.(matched := n.matched[m.from := m.index]));
    }
    if LeaderSends(cfg.voters, n', out) {
      MaySendMeans(cfg.voters, n', out);
    }
  }

  lemma CommitIsAll(voters: set<Id>, n: Node)
    requires voters != {}
    ensures var n' := MaybeCommit(voters, n); n' == n.(commit := n'.commit)
  {
  }

  /** A proposal that is taken: every entry at the end of the log in its turn, numbered, in the leader's term. */
  lemma ProposalTaken(cfg: Config, n: Node, m: Message, n': Node, out: set<Message>)
    requires cfg.Valid() && n.id in cfg.voters && Step(cfg, n, m, n', out) && m.Prop? && n.role.Leader? && n.term > 0
    requires !(n' == n && out == {})
    ensures |n'.log| == |n.log| + |m.entries| && n'.log[..|n.log|] == n.log
    ensures forall i | 0 <= i < |m.entries| ::
      var e, e' := m.entries[i], n'.log[|n.log| + i];
      && e'.term == n.term && e'.index == |n.log| + 1 + i
      && ((e'.kind == e.kind && e'.data == e.data) || (e.kind.ConfChange? && e'.kind.Normal? && e'.data == []))
    ensures n' == n.(log := n'.log, matched := n'.matched, commit := n'.commit)
    ensures n'.matched == n.matched[n.id := Max(if n.id in n.matched then n.matched[n.id] else 0, |n'.log|)]
    ensures CommitsWhatIsReached(cfg.voters, n.commit, n')
    ensures forall x | x in out :: SentBy(cfg.voters, n', x)
  {
    hide MaybeCommit, LeaderMay, LeaderSends;
    var ents: seq<Entry> :| Screened(m.entries, ents) && n' == AppendEntry(cfg.voters, n, ents) && LeaderSends(cfg.voters, n', out);
    var log := n.log + Stamp(n.term, |n.log|, ents);
    var mid := n.(log := log, matched := n.matched[n.id := Max(Quorum.Known(n.matched, n.id), |log|)]);
    CommitRule(cfg.voters, mid);
    CommitIsAll(cfg.voters, mid);
    MaySendMeans(cfg.voters, n', out);
  }

  /** Whatever else reaches a leader in its term leaves its view alone. */
  lemma LeaderUnmoved(cfg: Config, n: Node, m: Message, n': Node, out: set<Message>)
    requires cfg.Valid() && n.id in cfg.voters && Step(cfg, n, m, n', out) && n.role.Leader?
    requires m.Unreachable? || m.SnapStatus? || m.TransferLeader? || (m.HeartbeatResp? && m.term == n.term > 0)
    ensures n' == n && (m.Unreachable? || m.SnapStatus? ==> out == {})
    ensures forall x | x in out :: SentBy(cfg.voters, n, x)
  {
    hide LeaderMay, LeaderSends;
    if LeaderSends(cfg.voters, n', out) {
      MaySendMeans(cfg.voters, n', out);
    }
  }
}
