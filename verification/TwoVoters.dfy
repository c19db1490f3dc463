/**
 * Two voters, whatever their settings. As long as a leader sends what its send window allows, a
 * restart keeps the commit index that was synced with the term, and nobody needs a snapshot, no node
 * throws out of its log, although there may be two leaders of one term and logs that do not match.
 *
 * The argument is about one leader and one follower in one term. The leader probes downwards and only
 * after a rejection (raft-kv/raft/progress.cpp:71-99), so that what it offers first is the highest
 * index at which the follower's log may still agree; from there on nothing that the follower has
 * acknowledged is cut.
 */
module TwoVoters {
  import opened Proto
  import opened NodeSpec
  import opened Cluster
  import opened Actions
  import opened SendWindow
  import Election
  import LogMatching
  import Quorum
  import Refinement
  import Runs

  // ---------------------------------------------------------------- the record of the past

  datatype Slot = Slot(node: Id, term: Term)

  /** The log of a leader, and where its own term starts. */
  datatype Reign = Reign(log: seq<Entry>, start: nat)

  /** Every reign so far, and the commit index each node had when it entered its term. */
  datatype Past = Past(reigns: map<Slot, Reign>, kept: map<Id, nat>)

  ghost predicate Shape(log: seq<Entry>, t: Term) {
    && (forall i | 0 <= i < |log| :: log[i].index == i + 1 && 1 <= log[i].term <= t)
    && (forall i, j | 0 <= i < j < |log| :: log[i].term <= log[j].term)
  }

  ghost predicate ReignOk(r: Reign, t: Term) {
    && Shape(r.log, t) && r.start < |r.log|
    && (forall i | 0 <= i < r.start :: r.log[i].term < t)
    && (forall i | r.start <= i < |r.log| :: r.log[i].term == t)
  }

  predicate Idle(n: Node) { n.role.Follower? || n.role.PreCandidate? }

  ghost predicate NodeOk(net: set<Message>, h: Past, n: Node) {
    && n.term >= 1 && Shape(n.log, n.term) && n.commit <= |n.log|
    && n.id in h.kept && h.kept[n.id] <= n.commit
    && (forall s | s in h.reigns && s.node == n.id :: s.term <= n.term)
    && (n.role.Candidate? ==> Slot(n.id, n.term) !in h.reigns && forall i | 0 <= i < |n.log| :: n.log[i].term < n.term)
    && (n.role.Leader? ==>
          && Slot(n.id, n.term) in h.reigns && h.reigns[Slot(n.id, n.term)].log == n.log
          && forall j | j != n.id && Quorum.Known(n.matched, j) > 0 :: AckedTo(net, n.id, j, n.term, Quorum.Known(n.matched, j)))
  }

  /** An answer to an append that says something. */
  predicate Answer(m: Message) { m.AppResp? && (m.reject || m.index > 0) }

  ghost predicate MsgOk(voters: set<Id>, net: set<Message>, h: Past, m: Message) {
    match m
    case App(from, to, term, index, logTerm, entries, _) =>
      && from in voters && from != to && Slot(from, term) in h.reigns
      && LogMatching.SliceOf(h.reigns[Slot(from, term)].log, index, entries)
      && logTerm == TermAt(h.reigns[Slot(from, term)].log, index)
    case Heartbeat(from, to, term, commit) =>
      from in voters && from != to && (commit > 0 ==> AckedTo(net, from, to, term, commit))
    case AppResp(from, to, term, _, _, _) =>
      Answer(m) ==> from in voters && to in voters && from != to && Slot(to, term) in h.reigns
    case Snap(_, _, _, _, _, _) => false
    case _ => true
  }

  /** Whoever has answered an append holds no office in that term any more. */
  ghost predicate OfficeOk(c: State, m: Message)
    requires Answer(m) ==> m.from in c.nodes
  {
    Answer(m) ==> var n := c.nodes[m.from]; m.term < n.term || (m.term == n.term && Idle(n))
  }

  /** What the window amounts to, for a message of reign r. */
  ghost predicate Sendable(net: set<Message>, r: Reign, m: Message)
    requires m.App?
  {
    && (m.index <= r.start ==> m.entries != [])
    && (m.index > r.start ==> AckedTo(net, m.from, m.to, m.term, 1))
    && (m.index < r.start ==> LoweredTo(net, m.from, m.to, m.term, m.index))
  }

  // ---------------------------------------------------------------- one leader and one follower in one term

  ghost predicate Answered(net: set<Message>, l: Id, f: Id, t: Term) {
    exists m :: m in net && (Rejects(m, l, f, t) || Acks(m, l, f, t))
  }

  /** Between lo and the leader's own entries the follower's log differs everywhere. */
  ghost predicate Apart(r: Reign, log: seq<Entry>, lo: nat) {
    forall q | lo < q <= r.start && q <= |log| :: TermAt(log, q) != TermAt(r.log, q)
  }

  /** From lo on the logs agree as far as both go. */
  ghost predicate Joined(r: Reign, log: seq<Entry>, lo: nat) {
    lo <= |log| && forall q | lo <= q <= |log| && q <= |r.log| :: TermAt(log, q) == TermAt(r.log, q)
  }

  /**
   * lo is the lowest index the leader may probe at. Before the follower has accepted it, the logs
   * differ above; what it may have acknowledged until then is a commit index above lo, which it
   * cannot lose. Afterwards the logs agree above.
   */
  ghost predicate Tracks(net: set<Message>, l: Id, f: Id, t: Term, r: Reign, log: seq<Entry>, commit: nat, kept: nat, lo: nat) {
    && lo <= r.start
    && (forall m | m in net && Rejects(m, l, f, t) :: lo < m.index && lo <= m.hint)
    && (forall m | m in net && Acks(m, l, f, t) :: m.index <= |log|)
    && (|| (Apart(r, log, lo) && if AckedTo(net, l, f, t, 1) then lo < kept else commit <= kept)
        || (Joined(r, log, lo) && AckedTo(net, l, f, t, 1)))
  }

  /** l has no office in term t, will have none, and has made nothing of f's acknowledgements. */
  ghost predicate Done(net: set<Message>, n: Node, f: Id, t: Term) {
    && (t < n.term || (t == n.term && Idle(n)))
    && forall m | m in net && m.Heartbeat? && m.from == n.id && m.to == f && m.term == t :: m.commit == 0
  }

  ghost predicate Follows(net: set<Message>, h: Past, l: Id, n: Node)
    requires n.id in h.kept
  {
    || (!Answered(net, l, n.id, n.term) && n.commit <= h.kept[n.id])
    || (&& Slot(l, n.term) in h.reigns
        && exists lo: nat :: Tracks(net, l, n.id, n.term, h.reigns[Slot(l, n.term)], n.log, n.commit, h.kept[n.id], lo))
  }

  ghost predicate PhaseOk(c: State, h: Past, l: Id, f: Id)
    requires l in c.nodes && f in c.nodes && c.nodes[f].id in h.kept
  {
    Done(c.net, c.nodes[l], f, c.nodes[f].term) || Follows(c.net, h, l, c.nodes[f])
  }

  // ---------------------------------------------------------------- what an append does

  /** Where the conflict lies, for logs whose terms do not fall. */
  lemma {:induction false} ConflictTerms(log: seq<Entry>, other: seq<Entry>, t: Term, prev: nat, ents: seq<Entry>)
    requires Shape(log, t) && Shape(other, t) && LogMatching.SliceOf(other, prev, ents)
    requires TermAt(log, prev) == TermAt(other, prev)
    ensures prev <= |log| && prev + |ents| <= |other|
    ensures var ci := FindConflict(log, ents);
      && (ci == 0 ==> prev + |ents| <= |log| && Same(log, other, prev, prev + |ents|))
      && (ci != 0 ==>
            && prev < ci <= |log| + 1 && ci <= prev + |ents|
            && TermAt(log, ci) != TermAt(other, ci) && Same(log, other, prev, ci - 1))
  {
    LogMatching.ConflictIsFirst(log, prev, ents);
    assert prev > 0 ==> other[prev - 1].term >= 1;
    var ci := FindConflict(log, ents);
    var end := if ci == 0 then prev + |ents| else ci - 1;
    hide FindConflict;
    forall q | prev < q <= end ensures TermAt(log, q) == TermAt(other, q) && q <= |log| {
      assert TermAt(log, prev + 1 + (q - 1 - prev)) == ents[q - 1 - prev].term;
      assert ents[q - 1 - prev] == other[q - 1];
    }
    if ci != 0 {
      assert ents[ci - 1 - prev] == other[ci - 1];
    }
    assert end > prev ==> TermAt(log, end) == TermAt(other, end);
  }

  ghost predicate Same(log: seq<Entry>, other: seq<Entry>, from: nat, to: nat) {
    forall q | from <= q <= to :: TermAt(log, q) == TermAt(other, q)
  }

  /** The log after an append: what agreed, and then the other log. */
  lemma {:induction false} MergeTerms(log: seq<Entry>, other: seq<Entry>, t: Term, prev: nat, ents: seq<Entry>)
    requires Shape(log, t) && Shape(other, t) && LogMatching.SliceOf(other, prev, ents)
    requires TermAt(log, prev) == TermAt(other, prev)
    ensures var ci, log' := FindConflict(log, ents), Merge(log, prev, ents);
      && prev + |ents| <= |log'| && prev + |ents| <= |other|
      && (ci == 0 ==> log' == log)
      && (ci != 0 ==> prev < ci <= |log| + 1 && ci <= prev + |ents| && log' == log[..ci - 1] + other[ci - 1..prev + |ents|])
  {
    hide *;
    ConflictTerms(log, other, t, prev, ents);
    MergeIs(log, prev, ents);
    var ci := FindConflict(log, ents);
    if ci != 0 {
      SliceRest(other, prev, ents, ci - 1);
    }
  }

  lemma {:induction false} MergeIs(log: seq<Entry>, prev: nat, ents: seq<Entry>)
    ensures var ci, log' := FindConflict(log, ents), Merge(log, prev, ents);
      && (ci == 0 ==> log' == log)
      && (prev < ci <= |log| + 1 && ci - 1 - prev <= |ents| ==> log' == log[..ci - 1] + ents[ci - 1 - prev..])
  {
    hide FindConflict;
  }

  lemma SliceRest(log: seq<Entry>, prev: nat, ents: seq<Entry>, k: nat)
    requires LogMatching.SliceOf(log, prev, ents) && prev <= k <= prev + |ents|
    ensures prev + |ents| <= |log| && ents[k - prev..] == log[k..prev + |ents|]
  {
  }

  lemma {:induction false} MergeShape(log: seq<Entry>, other: seq<Entry>, t: Term, prev: nat, ents: seq<Entry>)
    requires Shape(log, t) && Shape(other, t) && LogMatching.SliceOf(other, prev, ents)
    requires TermAt(log, prev) == TermAt(other, prev)
    ensures Shape(Merge(log, prev, ents), t)
  {
    hide *;
    ConflictTerms(log, other, t, prev, ents);
    MergeTerms(log, other, t, prev, ents);
    var ci := FindConflict(log, ents);
    if ci != 0 {
      SameEnds(log, other, prev, ci - 1);
      Seam(log, other, ci - 1, prev + |ents|, t);
    }
  }

  lemma SameEnds(log: seq<Entry>, other: seq<Entry>, from: nat, to: nat)
    requires Same(log, other, from, to) && from <= to
    ensures TermAt(log, to) == TermAt(other, to)
  {
  }

  lemma Seam(log: seq<Entry>, other: seq<Entry>, k: nat, end: nat, t: Term)
    requires Shape(log, t) && Shape(other, t) && k <= |log| && k <= end <= |other|
    requires TermAt(log, k) == TermAt(other, k)
    ensures Shape(log[..k] + other[k..end], t)
  {
    var log' := log[..k] + other[k..end];
    forall i, j | 0 <= i < j < |log'| ensures log'[i].term <= log'[j].term {
      if i < k <= j {
        assert log[i].term <= log[k - 1].term && other[k - 1].term <= other[j].term;
      }
    }
  }

  /** Where the follower's log is of term t, so is everything above it. */
  lemma TopTerm(log: seq<Entry>, t: Term, p: nat, q: nat)
    requires Shape(log, t) && 1 <= p <= q <= |log| && TermAt(log, p) == t
    ensures TermAt(log, q) == t
  {
    if p < q {
      assert log[p - 1].term <= log[q - 1].term;
    }
  }

  /** The first append that is accepted at lo brings the logs together. */
  lemma {:induction false} Joins(r: Reign, log: seq<Entry>, t: Term, prev: nat, ents: seq<Entry>)
    requires ReignOk(r, t) && Shape(log, t) && LogMatching.SliceOf(r.log, prev, ents) && ents != []
    requires prev <= r.start && TermAt(log, prev) == TermAt(r.log, prev) && Apart(r, log, prev)
    ensures Joined(r, Merge(log, prev, ents), prev) && prev + |ents| <= |Merge(log, prev, ents)|
  {
    hide Merge, FindConflict;
    ConflictTerms(log, r.log, t, prev, ents);
    MergeTerms(log, r.log, t, prev, ents);
    var ci, log' := FindConflict(log, ents), Merge(log, prev, ents);
    forall q | prev <= q <= |log'| && q <= |r.log| ensures TermAt(log', q) == TermAt(r.log, q) {
      if ci == 0 {
        assert TermAt(log, prev + 1) == TermAt(r.log, prev + 1);
        assert prev == r.start;
        if q > prev {
          TopTerm(log, t, prev + 1, q);
        }
      }
    }
  }

  /** Where the logs agree, an append cuts nothing. */
  lemma {:induction false} StaysJoined(r: Reign, log: seq<Entry>, t: Term, lo: nat, prev: nat, ents: seq<Entry>)
    requires ReignOk(r, t) && Shape(log, t) && LogMatching.SliceOf(r.log, prev, ents)
    requires lo <= prev && TermAt(log, prev) == TermAt(r.log, prev) && Joined(r, log, lo)
    ensures Joined(r, Merge(log, prev, ents), lo)
    ensures |log| <= |Merge(log, prev, ents)| && prev + |ents| <= |Merge(log, prev, ents)|
  {
    hide Merge, FindConflict;
    ConflictTerms(log, r.log, t, prev, ents);
    MergeTerms(log, r.log, t, prev, ents);
  }

  /** An append above the leader's first entry cuts nothing either. */
  lemma {:induction false} StaysApart(r: Reign, log: seq<Entry>, t: Term, lo: nat, prev: nat, ents: seq<Entry>)
    requires ReignOk(r, t) && Shape(log, t) && LogMatching.SliceOf(r.log, prev, ents)
    requires r.start < prev && TermAt(log, prev) == TermAt(r.log, prev) && Apart(r, log, lo)
    ensures Apart(r, Merge(log, prev, ents), lo)
    ensures |log| <= |Merge(log, prev, ents)| && prev + |ents| <= |Merge(log, prev, ents)|
  {
    hide Merge, FindConflict;
    ConflictTerms(log, r.log, t, prev, ents);
    MergeTerms(log, r.log, t, prev, ents);
    var ci := FindConflict(log, ents);
    assert TermAt(log, prev) == t;
    if ci != 0 && ci <= |log| {
      TopTerm(log, t, prev, ci);
    }
  }

  // ---------------------------------------------------------------- what the follower's answers do

  /** Whatever the window lets through is at lo or above. */
  lemma OfferedAbove(net: set<Message>, net0: set<Message>, l: Id, f: Id, t: Term, r: Reign, log: seq<Entry>, commit: nat, kept: nat,
                     lo: nat, m: Message)
    requires Tracks(net, l, f, t, r, log, commit, kept, lo) && net0 <= net
    requires m.App? && m.from == l && m.to == f && m.term == t && Sendable(net0, r, m)
    ensures lo <= m.index
    ensures m.index <= r.start ==> m.entries != []
    ensures m.index > r.start ==> AckedTo(net, l, f, t, 1)
  {
  }

  /** An answer that is already there, or one more. */
  lemma AckedMore(net: set<Message>, x: Message, l: Id, f: Id, t: Term, k: nat)
    ensures AckedTo(net, l, f, t, k) ==> AckedTo(net + {x}, l, f, t, k)
    ensures Acks(x, l, f, t) && k <= x.index ==> AckedTo(net + {x}, l, f, t, k)
    ensures !Acks(x, l, f, t) ==> (AckedTo(net + {x}, l, f, t, k) <==> AckedTo(net, l, f, t, k))
  {
    if Acks(x, l, f, t) && k <= x.index {
      assert x in net + {x};
    }
    if m :| m in net && Acks(m, l, f, t) && k <= m.index {
      assert m in net + {x};
    }
  }

  lemma TracksCommitAck(net: set<Message>, l: Id, f: Id, t: Term, r: Reign, log: seq<Entry>, commit: nat, kept: nat, lo: nat)
    requires Tracks(net, l, f, t, r, log, commit, kept, lo)
    requires kept <= commit <= |log| && lo < commit
    ensures Tracks(net + {AppResp(f, l, t, commit, false, 0)}, l, f, t, r, log, commit, kept, lo)
  {
    AckedMore(net, AppResp(f, l, t, commit, false, 0), l, f, t, 1);
  }

  lemma TracksTurnDown(net: set<Message>, l: Id, f: Id, t: Term, r: Reign, log: seq<Entry>, commit: nat, kept: nat, lo: nat, p: nat)
    returns (lo': nat)
    requires Tracks(net, l, f, t, r, log, commit, kept, lo)
    requires lo <= p <= |r.log| && TermAt(log, p) != TermAt(r.log, p)
    ensures Tracks(net + {AppResp(f, l, t, p, true, |log|)}, l, f, t, r, log, commit, kept, lo')
  {
    AckedMore(net, AppResp(f, l, t, p, true, |log|), l, f, t, 1);
    if Joined(r, log, lo) && AckedTo(net, l, f, t, 1) {
      lo' := lo;
    } else {
      lo' := Min(if p == lo then lo - 1 else lo, |log|);
    }
  }

  lemma {:induction false} TracksAccept(net: set<Message>, net0: set<Message>, l: Id, f: Id, t: Term, r: Reign, log: seq<Entry>,
                                        commit: nat, commit': nat, kept: nat, lo: nat, m: Message)
    requires ReignOk(r, t) && Shape(log, t)
    requires m.App? && Tracks(net, l, f, t, r, log, commit, kept, lo) && kept <= commit <= m.index && net0 <= net
    requires m.from == l && m.to == f && m.term == t && Sendable(net0, r, m)
    requires LogMatching.SliceOf(r.log, m.index, m.entries) && TermAt(log, m.index) == TermAt(r.log, m.index)
    ensures Tracks(net + {AppResp(f, l, t, m.index + |m.entries|, false, 0)}, l, f, t, r, Merge(log, m.index, m.entries),
                   commit', kept, lo)
  {
    hide Merge;
    OfferedAbove(net, net0, l, f, t, r, log, commit, kept, lo, m);
    AckedMore(net, AppResp(f, l, t, m.index + |m.entries|, false, 0), l, f, t, 1);
    ConflictTerms(log, r.log, t, m.index, m.entries);
    if Joined(r, log, lo) && AckedTo(net, l, f, t, 1) {
      StaysJoined(r, log, t, lo, m.index, m.entries);
    } else if m.index > r.start {
      StaysApart(r, log, t, lo, m.index, m.entries);
    } else {
      assert m.index == lo;
      Joins(r, log, t, lo, m.entries);
    }
  }

  /** A longer reign changes nothing for its followers. */
  lemma TracksLonger(net: set<Message>, l: Id, f: Id, t: Term, r: Reign, r': Reign, log: seq<Entry>, commit: nat, kept: nat, lo: nat)
    requires Tracks(net, l, f, t, r, log, commit, kept, lo)
    requires ReignOk(r, t) && ReignOk(r', t) && r'.start == r.start && r.log <= r'.log && Shape(log, t)
    ensures Tracks(net, l, f, t, r', log, commit, kept, lo)
  {
    forall q | 1 <= q <= |r.log| ensures TermAt(r'.log, q) == TermAt(r.log, q) {
      assert r'.log[q - 1] == r.log[q - 1];
    }
    if Joined(r, log, lo) {
      forall q | lo <= q <= |log| && q <= |r'.log| ensures TermAt(log, q) == TermAt(r'.log, q) {
        if q > |r.log| {
          assert TermAt(log, r.start + 1) == TermAt(r.log, r.start + 1) == t;
          TopTerm(log, t, r.start + 1, q);
        }
      }
    }
  }

  // ---------------------------------------------------------------- the invariant

  ghost predicate ReignsOk(voters: set<Id>, h: Past) {
    forall s | s in h.reigns :: s.node in voters && ReignOk(h.reigns[s], s.term)
  }

  ghost predicate Inv(cfg: Config, c: State, h: Past) {
    && WellFormed(cfg, c) && |cfg.voters| == 2 && ReignsOk(cfg.voters, h)
    && (forall i | i in cfg.voters :: NodeOk(c.net, h, c.nodes[i]))
    && (forall m | m in c.net :: MsgOk(cfg.voters, c.net, h, m) && OfficeOk(c, m))
    && (forall l, f | l in cfg.voters && f in cfg.voters && l != f :: PhaseOk(c, h, l, f))
  }

  /** Everything in net was sent as the window allows. */
  ghost predicate Supports(net: set<Message>, h: Past) {
    forall m | m in net && m.App? :: Slot(m.from, m.term) in h.reigns && Sendable(net, h.reigns[Slot(m.from, m.term)], m)
  }

  ghost predicate Grows(h: Past, h': Past) {
    forall s | s in h.reigns ::
      s in h'.reigns && h'.reigns[s].start == h.reigns[s].start && h.reigns[s].log <= h'.reigns[s].log
  }

  function NextPast(n: Node, a: Action, h: Past): Past {
    var s := Slot(n.id, n.term);
    if a.Stand? || (a.StepDown? && n.term < a.term) then h.(kept := h.kept[n.id := n.commit])
    else if a.Win? then h.(reigns := h.reigns[s := Reign(Crowned(n).log, |n.log|)])
    else if a.LeadAppend? && s in h.reigns then
      h.(reigns := h.reigns[s := h.reigns[s].(log := Lengthened(n, a.entries).log)])
    else h
  }

  /** What an action must respect besides its guard. */
  ghost predicate Fair(net0: set<Message>, h: Past, n: Node, a: Action) {
    && Consumed(a) <= net0
    && (a.Emit? ==> forall m | m in a.out :: !m.Snap?)
    && (a.Recover? ==> n.id in h.kept && h.kept[n.id] <= a.commit)
  }

  lemma StampedShape(log: seq<Entry>, t: Term, ents: seq<Entry>)
    requires Shape(log, t) && t >= 1
    ensures Shape(log + Stamp(t, |log|, ents), t)
  {
  }

  lemma NewReignOk(net: set<Message>, h: Past, n: Node)
    requires NodeOk(net, h, n) && n.role.Candidate?
    ensures ReignOk(Reign(Crowned(n).log, |n.log|), n.term) && Slot(n.id, n.term) !in h.reigns
  {
    StampedShape(n.log, n.term, [NOOP]);
  }

  lemma LongerReignOk(net: set<Message>, h: Past, n: Node, ents: seq<Entry>)
    requires NodeOk(net, h, n) && n.role.Leader? && ReignOk(h.reigns[Slot(n.id, n.term)], n.term)
    ensures var r := h.reigns[Slot(n.id, n.term)];
      ReignOk(r.(log := Lengthened(n, ents).log), n.term) && r.log <= Lengthened(n, ents).log
  {
    StampedShape(n.log, n.term, ents);
  }

  lemma PastGrows(voters: set<Id>, net: set<Message>, h: Past, n: Node, a: Action)
    requires n.id in voters && NodeOk(net, h, n) && ReignsOk(voters, h)
    requires a.Win? ==> n.role.Candidate?
    requires a.LeadAppend? ==> n.role.Leader?
    ensures Grows(h, NextPast(n, a, h)) && ReignsOk(voters, NextPast(n, a, h))
  {
    hide ReignOk, NodeOk, Crowned, Lengthened;
    if a.Win? {
      NewReignOk(net, h, n);
    } else if a.LeadAppend? && Slot(n.id, n.term) in h.reigns {
      LongerReignOk(net, h, n, a.entries);
    }
  }

  lemma AckedOn(net: set<Message>, net': set<Message>, l: Id, f: Id, t: Term, k: nat)
    requires AckedTo(net, l, f, t, k) && net <= net'
    ensures AckedTo(net', l, f, t, k)
  {
    var m :| m in net && Acks(m, l, f, t) && k <= m.index;
    assert m in net';
  }

  lemma NodeStaysOk(net: set<Message>, net': set<Message>, h: Past, h': Past, n: Node, i: Id)
    requires NodeOk(net, h, n) && net <= net' && n.id != i
    requires forall s: Slot | s.node != i :: (s in h'.reigns <==> s in h.reigns) && (s in h.reigns ==> h'.reigns[s] == h.reigns[s])
    requires forall j | j != i && j in h.kept :: j in h'.kept && h'.kept[j] == h.kept[j]
    ensures NodeOk(net', h', n)
  {
    if n.role.Leader? {
      forall j | j != n.id && Quorum.Known(n.matched, j) > 0 ensures AckedTo(net', n.id, j, n.term, Quorum.Known(n.matched, j)) {
        AckedOn(net, net', n.id, j, n.term, Quorum.Known(n.matched, j));
      }
    }
  }

  /** What an action does to the actor, when it is not told by a leader and leads nobody. */
  lemma PlainActor(cfg: Config, net: set<Message>, net': set<Message>, h: Past, n: Node, a: Action)
    requires cfg.Valid() && n.id in cfg.voters && NodeOk(net, h, n) && Guard(cfg, n, a) && net <= net'
    requires a.StepDown? || a.Follow? || a.Emit? || a.Grant? || a.Stand? || a.PreStand? || a.Tally? || a.AckCommitted? || a.TurnDown?
      || a.Recover?
    requires a.Recover? ==> h.kept[n.id] <= a.commit
    ensures NodeOk(net', NextPast(n, a, h), NewNode(cfg, n, a))
  {
    if n.role.Leader? {
      forall j | j != n.id && Quorum.Known(n.matched, j) > 0 ensures AckedTo(net', n.id, j, n.term, Quorum.Known(n.matched, j)) {
        AckedOn(net, net', n.id, j, n.term, Quorum.Known(n.matched, j));
      }
    }
  }

  lemma LeadingActor(cfg: Config, net: set<Message>, h: Past, n: Node, a: Action)
    requires cfg.Valid() && n.id in cfg.voters && NodeOk(net, h, n) && Guard(cfg, n, a)
    requires a.Win? || a.LeadAppend? || a.LeadCommit? || a.LeadMatch?
    requires a.LeadMatch? ==> a.m in net
    ensures NodeOk(net, NextPast(n, a, h), NewNode(cfg, n, a))
  {
    var n' := NewNode(cfg, n, a);
    if a.Win? {
      StampedShape(n.log, n.term, [NOOP]);
    } else {
      if a.LeadAppend? {
        StampedShape(n.log, n.term, a.entries);
      }
      forall j | j != n.id && Quorum.Known(n'.matched, j) > 0 ensures AckedTo(net, n.id, j, n.term, Quorum.Known(n'.matched, j)) {
        if a.LeadMatch? && j == a.m.from {
          assert a.m in net && Acks(a.m, n.id, j, n.term);
        } else {
          assert Quorum.Known(n'.matched, j) == Quorum.Known(n.matched, j);
        }
      }
    }
  }

  lemma {:induction false} ToldActor(cfg: Config, net: set<Message>, net': set<Message>, h: Past, n: Node, a: Action)
    requires cfg.Valid() && n.id in cfg.voters && NodeOk(net, h, n) && Guard(cfg, n, a) && net <= net'
    requires a.Accept? || a.Advance?
    requires ReignsOk(cfg.voters, h) && MsgOk(cfg.voters, net, h, a.m)
    ensures NodeOk(net', h, NewNode(cfg, n, a))
  {
    hide Merge, FindConflict;
    if a.Accept? {
      var r := h.reigns[Slot(a.m.from, a.m.term)];
      MergeShape(n.log, r.log, n.term, a.m.index, a.m.entries);
      MergeTerms(n.log, r.log, n.term, a.m.index, a.m.entries);
      ConflictTerms(n.log, r.log, n.term, a.m.index, a.m.entries);
    }
  }

  lemma ActorOk(cfg: Config, net: set<Message>, net': set<Message>, h: Past, n: Node, a: Action)
    requires cfg.Valid() && n.id in cfg.voters && NodeOk(net, h, n) && Guard(cfg, n, a) && net <= net' && Consumed(a) <= net
    requires ReignsOk(cfg.voters, h) && forall m | m in Consumed(a) :: MsgOk(cfg.voters, net, h, m)
    requires a.Recover? ==> h.kept[n.id] <= a.commit
    ensures NodeOk(net', NextPast(n, a, h), NewNode(cfg, n, a))
  {
    hide NodeOk, NewNode, NextPast, Guard;
    if a.Win? || a.LeadAppend? || a.LeadCommit? || a.LeadMatch? {
      assert a.LeadMatch? ==> a.m in Consumed(a);
      LeadingActor(cfg, net, h, n, a);
      LeadingNet(net, net', h, n, a, cfg);
    } else if a.Accept? || a.Advance? || a.Install? {
      assert a.m in Consumed(a);
      InstallIsSnap(cfg, n, a);
      ToldActor(cfg, net, net', h, n, a);
      ToldPast(n, a, h);
    } else {
      PlainActor(cfg, net, net', h, n, a);
    }
  }

  lemma InstallIsSnap(cfg: Config, n: Node, a: Action)
    requires Guard(cfg, n, a)
    ensures a.Install? ==> a.m.Snap?
  {
  }

  lemma ToldPast(n: Node, a: Action, h: Past)
    requires a.Accept? || a.Advance?
    ensures NextPast(n, a, h) == h
  {
  }

  lemma LeadingNet(net: set<Message>, net': set<Message>, h: Past, n: Node, a: Action, cfg: Config)
    requires Guard(cfg, n, a) && net <= net' && NodeOk(net, NextPast(n, a, h), NewNode(cfg, n, a))
    ensures NodeOk(net', NextPast(n, a, h), NewNode(cfg, n, a))
  {
    var n' := NewNode(cfg, n, a);
    hide NewNode, NextPast;
    if n'.role.Leader? {
      forall j | j != n'.id && Quorum.Known(n'.matched, j) > 0 ensures AckedTo(net', n'.id, j, n'.term, Quorum.Known(n'.matched, j)) {
        AckedOn(net, net', n'.id, j, n'.term, Quorum.Known(n'.matched, j));
      }
    }
  }

  // ---------------------------------------------------------------- messages and offices

  lemma MsgStaysOk(voters: set<Id>, net: set<Message>, net': set<Message>, h: Past, h': Past, m: Message)
    requires MsgOk(voters, net, h, m) && net <= net' && Grows(h, h')
    ensures MsgOk(voters, net', h', m)
  {
    if m.App? {
      var r, r' := h.reigns[Slot(m.from, m.term)], h'.reigns[Slot(m.from, m.term)];
      assert forall q | 0 <= q < |r.log| :: r'.log[q] == r.log[q];
    } else if m.Heartbeat? && m.commit > 0 {
      AckedOn(net, net', m.from, m.to, m.term, m.commit);
    }
  }

  lemma NewMsgOk(cfg: Config, net: set<Message>, h: Past, n: Node, a: Action, m: Message)
    requires cfg.Valid() && n.id in cfg.voters && NodeOk(net, h, n) && Guard(cfg, n, a) && m in NewMessages(cfg, n, a)
    requires a.Emit? ==> forall x | x in a.out :: !x.Snap?
    requires forall x | x in Consumed(a) :: MsgOk(cfg.voters, net, h, x)
    ensures MsgOk(cfg.voters, net, h, m)
  {
    if a.Emit? {
      assert MayEmit(cfg, n, m);
    } else if a.Accept? || a.AckCommitted? || a.TurnDown? || a.Install? {
      assert a.m in Consumed(a);
    }
  }

  /** Only the actor answers for itself, and only as a follower. */
  lemma NewAnswers(cfg: Config, n: Node, a: Action, m: Message)
    requires Guard(cfg, n, a) && m in NewMessages(cfg, n, a)
    ensures m.AppResp? ==> m.from == n.id && m.term == n.term
    ensures Answer(m) ==>
      (a.Accept? || a.AckCommitted? || a.TurnDown?) && NewNode(cfg, n, a).term == n.term && NewNode(cfg, n, a).role.Follower?
    ensures m.Heartbeat? ==> n.role.Leader? && m.from == n.id && m.term == n.term && NewNode(cfg, n, a) == n
  {
    if a.Emit? {
      assert MayEmit(cfg, n, m);
    }
  }

  lemma RoleMoves(cfg: Config, n: Node, a: Action)
    requires Guard(cfg, n, a)
    ensures var n' := NewNode(cfg, n, a);
      && n'.id == n.id && n.term <= n'.term
      && (n'.term == n.term && Idle(n) ==> Idle(n'))
      && (n.term < n'.term ==> n'.log == n.log && n'.commit == n.commit && (a.Stand? || a.StepDown?) && !NewMessagesAnswer(cfg, n, a))
  {
  }

  ghost predicate NewMessagesAnswer(cfg: Config, n: Node, a: Action)
    requires Guard(cfg, n, a)
  {
    exists m :: m in NewMessages(cfg, n, a) && Answer(m)
  }

  lemma OfficesOk(cfg: Config, c: State, a: Action, m: Message)
    requires WellFormed(cfg, c) && Enabled(cfg, c, a)
    requires (Answer(m) ==> m.from in cfg.voters) && m in Effect(cfg, c, a).net && (m in c.net ==> OfficeOk(c, m))
    ensures Answer(m) ==> m.from in Effect(cfg, c, a).nodes
    ensures OfficeOk(Effect(cfg, c, a), m)
  {
    var n := c.nodes[a.i];
    RoleMoves(cfg, n, a);
    if m !in c.net {
      NewAnswers(cfg, n, a, m);
    }
  }

  // ---------------------------------------------------------------- the phases

  lemma DoneStays(cfg: Config, net: set<Message>, n: Node, a: Action, f: Id, t: Term)
    requires Guard(cfg, n, a) && Done(net, n, f, t)
    ensures Done(net + NewMessages(cfg, n, a), NewNode(cfg, n, a), f, t)
  {
    RoleMoves(cfg, n, a);
    forall m | m in NewMessages(cfg, n, a) && m.Heartbeat? ensures m.term != t {
      NewAnswers(cfg, n, a, m);
    }
    hide NewMessages, NewNode;
  }

  /** Messages that are no answers from f to l change nothing between the two. */
  lemma FollowsOn(net: set<Message>, net': set<Message>, h: Past, l: Id, n: Node)
    requires n.id in h.kept && Follows(net, h, l, n) && net <= net'
    requires forall m | m in net' && m !in net :: !(Answer(m) && m.from == n.id)
    ensures Follows(net', h, l, n)
  {
    var f, t := n.id, n.term;
    assert AckedTo(net', l, f, t, 1) ==> AckedTo(net, l, f, t, 1);
    if AckedTo(net, l, f, t, 1) {
      AckedOn(net, net', l, f, t, 1);
    }
    if lo: nat :| Slot(l, t) in h.reigns && Tracks(net, l, f, t, h.reigns[Slot(l, t)], n.log, n.commit, h.kept[f], lo) {
      assert Tracks(net', l, f, t, h.reigns[Slot(l, t)], n.log, n.commit, h.kept[f], lo);
    }
  }

  /** Nor does a longer reign. */
  lemma FollowsLonger(voters: set<Id>, net: set<Message>, h: Past, h': Past, l: Id, n: Node)
    requires n.id in h.kept && n.id in h'.kept && h'.kept[n.id] == h.kept[n.id] && Follows(net, h, l, n)
    requires Grows(h, h') && ReignsOk(voters, h) && ReignsOk(voters, h') && Shape(n.log, n.term)
    ensures Follows(net, h', l, n)
  {
    hide ReignOk, Shape, Tracks;
    var f, t := n.id, n.term;
    if lo: nat :| Slot(l, t) in h.reigns && Tracks(net, l, f, t, h.reigns[Slot(l, t)], n.log, n.commit, h.kept[f], lo) {
      TracksLonger(net, l, f, t, h.reigns[Slot(l, t)], h'.reigns[Slot(l, t)], n.log, n.commit, h.kept[f], lo);
    }
  }

  lemma AcksAnswer(net: set<Message>, l: Id, f: Id, t: Term)
    ensures AckedTo(net, l, f, t, 1) ==> Answered(net, l, f, t)
  {
    if m :| m in net && Acks(m, l, f, t) && 1 <= m.index {
      assert m in net && (Rejects(m, l, f, t) || Acks(m, l, f, t));
    }
  }

  /** Before its first answer a follower stands at the leader's own entries. */
  lemma FromTheTop(net: set<Message>, h: Past, l: Id, n: Node) returns (lo: nat)
    requires n.id in h.kept && Follows(net, h, l, n) && Slot(l, n.term) in h.reigns
    ensures Tracks(net, l, n.id, n.term, h.reigns[Slot(l, n.term)], n.log, n.commit, h.kept[n.id], lo)
  {
    var r := h.reigns[Slot(l, n.term)];
    if !Answered(net, l, n.id, n.term) && n.commit <= h.kept[n.id] {
      lo := r.start;
      AcksAnswer(net, l, n.id, n.term);
    } else {
      lo :| Tracks(net, l, n.id, n.term, r, n.log, n.commit, h.kept[n.id], lo);
    }
  }

  /** A follower told by its leader. */
  lemma {:induction false} ToldFollows(cfg: Config, net0: set<Message>, net: set<Message>, h: Past, n: Node, a: Action)
    requires cfg.Valid() && n.id in cfg.voters && NodeOk(net, h, n) && Guard(cfg, n, a) && ReignsOk(cfg.voters, h)
    requires (a.Accept? || a.AckCommitted? || a.TurnDown?) && a.m in net0 && net0 <= net && Supports(net0, h)
    requires MsgOk(cfg.voters, net, h, a.m) && Follows(net, h, a.m.from, n)
    ensures Follows(net + NewMessages(cfg, n, a), h, a.m.from, NewNode(cfg, n, a))
  {
    hide Merge, FindConflict, Tracks, NodeOk, Follows, ReignOk, Shape, LogMatching.SliceOf, Sendable;
    var l, f, t, m := a.m.from, n.id, n.term, a.m;
    NodeFacts(net, h, n);
    var r, kept := h.reigns[Slot(l, t)], h.kept[f];
    var lo := FromTheTop(net, h, l, n);
    OfferedAbove(net, net0, l, f, t, r, n.log, n.commit, kept, lo, m);
    if a.Accept? {
      TracksAccept(net, net0, l, f, t, r, n.log, n.commit, NewNode(cfg, n, a).commit, kept, lo, m);
      FollowsIf(net + NewMessages(cfg, n, a), h, l, NewNode(cfg, n, a), lo);
    } else if a.AckCommitted? {
      TracksCommitAck(net, l, f, t, r, n.log, n.commit, kept, lo);
      FollowsIf(net + NewMessages(cfg, n, a), h, l, NewNode(cfg, n, a), lo);
    } else {
      SliceFits(r.log, m.index, m.entries);
      var lo' := TracksTurnDown(net, l, f, t, r, n.log, n.commit, kept, lo, m.index);
      FollowsIf(net + NewMessages(cfg, n, a), h, l, NewNode(cfg, n, a), lo');
    }
  }

  lemma NodeFacts(net: set<Message>, h: Past, n: Node)
    requires NodeOk(net, h, n)
    ensures n.id in h.kept && h.kept[n.id] <= n.commit <= |n.log| && Shape(n.log, n.term)
  {
  }

  lemma SliceFits(log: seq<Entry>, prev: nat, ents: seq<Entry>)
    requires LogMatching.SliceOf(log, prev, ents)
    ensures prev <= |log|
  {
  }

  lemma FollowsIf(net: set<Message>, h: Past, l: Id, n: Node, lo: nat)
    requires n.id in h.kept && Slot(l, n.term) in h.reigns
    requires Tracks(net, l, n.id, n.term, h.reigns[Slot(l, n.term)], n.log, n.commit, h.kept[n.id], lo)
    ensures Follows(net, h, l, n)
  {
  }

  /** Nothing but commit index and role of the follower has changed. */
  lemma FollowsStill(net: set<Message>, h: Past, l: Id, n: Node, n': Node)
    requires n.id in h.kept && Follows(net, h, l, n)
    requires n'.id == n.id && n'.term == n.term && n'.log == n.log
    requires n'.commit <= n.commit || AckedTo(net, l, n.id, n.term, 1)
    ensures Follows(net, h, l, n')
  {
    var f, t := n.id, n.term;
    AcksAnswer(net, l, f, t);
    if lo: nat :| Slot(l, t) in h.reigns && Tracks(net, l, f, t, h.reigns[Slot(l, t)], n.log, n.commit, h.kept[f], lo) {
      assert Tracks(net, l, f, t, h.reigns[Slot(l, t)], n'.log, n'.commit, h.kept[f], lo);
    }
  }

  /** A node that holds an office has not answered, and has committed nothing that it could lose. */
  lemma OfficerFollows(net: set<Message>, h: Past, l: Id, n: Node)
    requires n.id in h.kept && Follows(net, h, l, n) && !Idle(n)
    requires forall m | m in net && Answer(m) && m.from == n.id :: m.term < n.term || (m.term == n.term && Idle(n))
    ensures !Answered(net, l, n.id, n.term) && n.commit <= h.kept[n.id]
  {
    OfficerAnswersNot(net, l, n);
  }

  lemma Anew(net: set<Message>, h: Past, l: Id, n: Node)
    requires n.id in h.kept && n.commit <= h.kept[n.id]
    requires forall m | m in net && Answer(m) && m.from == n.id :: m.term != n.term
    ensures Follows(net, h, l, n)
  {
  }

  lemma FromTheOther(voters: set<Id>, net: set<Message>, h: Past, i: Id, o: Id, m: Message)
    requires voters == {i, o} && m in net && MsgOk(voters, net, h, m) && (m.App? || m.Heartbeat?) && m.to == i
    ensures m.from == o
    ensures m.Heartbeat? && m.commit > 0 ==> AckedTo(net, o, i, m.term, 1)
  {
    if m.Heartbeat? && m.commit > 0 {
      var x :| x in net && Acks(x, o, i, m.term) && m.commit <= x.index;
      assert 1 <= x.index;
    }
  }

  lemma IsNoSnap(voters: set<Id>, net: set<Message>, h: Past, m: Message)
    requires MsgOk(voters, net, h, m)
    ensures !m.Snap?
  {
  }

  lemma OfficerAnswersNot(net: set<Message>, l: Id, n: Node)
    requires forall m | m in net && Answer(m) && m.from == n.id :: m.term < n.term || (m.term == n.term && Idle(n))
    ensures !Idle(n) ==> !Answered(net, l, n.id, n.term) && forall k: nat :: !AckedTo(net, l, n.id, n.term, k)
  {
  }

  /** Both voters back a commit index; so a leader that commits has been answered by the other, which is no leader then. */
  lemma CommitMeansDone(cfg: Config, net: set<Message>, h: Past, n: Node, k: nat, l: Node)
    requires cfg.Valid() && cfg.voters == {n.id, l.id} && n.id != l.id && |cfg.voters| == 2
    requires NodeOk(net, h, n) && Guard(cfg, n, LeadCommit(n.id, k))
    requires forall m | m in net :: MsgOk(cfg.voters, net, h, m)
    requires forall m | m in net && Answer(m) && m.from == n.id :: m.term < n.term || (m.term == n.term && Idle(n))
    requires forall m | m in net && Answer(m) && m.from == l.id :: m.term < l.term || (m.term == l.term && Idle(l))
    ensures Done(net, l, n.id, n.term)
  {
    hide Shape;
    BothBack(cfg.voters, n.id, l.id, n.matched, k);
    assert AckedTo(net, n.id, l.id, n.term, Quorum.Known(n.matched, l.id));
    var m :| m in net && Acks(m, n.id, l.id, n.term);
    assert Answer(m);
    forall b | b in net && b.Heartbeat? && b.from == l.id && b.to == n.id && b.term == n.term ensures b.commit == 0 {
      assert MsgOk(cfg.voters, net, h, b);
      OfficerAnswersNot(net, l.id, n);
    }
  }

  lemma BothBack(voters: set<Id>, i: Id, o: Id, matched: map<Id, nat>, k: nat)
    requires voters == {i, o} && i != o && |voters| == 2 && Quorum.Backed(voters, matched, k)
    ensures k <= Quorum.Known(matched, o)
  {
    var b := Quorum.Backers(voters, matched, k);
    if o !in b {
      Quorum.SubsetSize(b, {i});
    }
  }

  /** What becomes of the actor as a follower of the other voter l. */
  lemma {:induction false} FollowerSide(cfg: Config, net0: set<Message>, net: set<Message>, h: Past, n: Node, a: Action, l: Node)
    requires cfg.Valid() && cfg.voters == {n.id, l.id} && n.id != l.id && |cfg.voters| == 2
    requires NodeOk(net, h, n) && NodeOk(net, h, l) && Guard(cfg, n, a) && ReignsOk(cfg.voters, h)
    requires Fair(net0, h, n, a) && net0 <= net && Supports(net0, h)
    requires forall m | m in net :: MsgOk(cfg.voters, net, h, m)
    requires forall m | m in net && Answer(m) && m.from == n.id :: m.term < n.term || (m.term == n.term && Idle(n))
    requires forall m | m in net && Answer(m) && m.from == l.id :: m.term < l.term || (m.term == l.term && Idle(l))
    requires Done(net, l, n.id, n.term) || Follows(net, h, l.id, n)
    ensures var n', h', net' := NewNode(cfg, n, a), NextPast(n, a, h), net + NewMessages(cfg, n, a);
      n'.id in h'.kept && (Done(net', l, n'.id, n'.term) || Follows(net', h', l.id, n'))
  {
    hide Follows, Tracks, Shape, ReignOk, Sendable, MsgOk, Merge;
    var n', h', net' := NewNode(cfg, n, a), NextPast(n, a, h), net + NewMessages(cfg, n, a);
    RoleMoves(cfg, n, a);
    if n.term < n'.term {
      Anew(net', h', l.id, n');
    } else if Done(net, l, n.id, n.term) {
      forall m | m in NewMessages(cfg, n, a) && m.Heartbeat? ensures m.from == n.id {
        NewAnswers(cfg, n, a, m);
      }
    } else if a.Accept? || a.AckCommitted? || a.TurnDown? {
      assert a.m in Consumed(a);
      FromTheOther(cfg.voters, net, h, n.id, l.id, a.m);
      ToldFollows(cfg, net0, net, h, n, a);
    } else if a.Install? {
      assert a.m in Consumed(a);
      IsNoSnap(cfg.voters, net, h, a.m);
    } else if a.LeadCommit? {
      CommitMeansDone(cfg, net, h, n, a.k, l);
    } else if a.Win? || a.LeadAppend? {
      OfficerFollows(net, h, l.id, n);
      Anew(net', h', l.id, n');
    } else {
      if a.Advance? {
        assert a.m in Consumed(a);
        FromTheOther(cfg.voters, net, h, n.id, l.id, a.m);
      }
      QuietFollows(cfg, net, h, n, a, l.id);
    }
  }

  lemma QuietFollows(cfg: Config, net: set<Message>, h: Past, n: Node, a: Action, l: Id)
    requires n.id in h.kept && Guard(cfg, n, a) && Follows(net, h, l, n)
    requires a.StepDown? || a.Follow? || a.Emit? || a.Grant? || a.PreStand? || a.Tally? || a.LeadMatch? || a.Advance? || a.Recover?
    requires n.term == NewNode(cfg, n, a).term
    requires a.Advance? && a.m.commit > 0 ==> AckedTo(net, l, n.id, n.term, 1)
    ensures n.id in NextPast(n, a, h).kept && Follows(net + NewMessages(cfg, n, a), NextPast(n, a, h), l, NewNode(cfg, n, a))
  {
    var n', net' := NewNode(cfg, n, a), net + NewMessages(cfg, n, a);
    FollowsStill(net, h, l, n, n');
    forall m | m in NewMessages(cfg, n, a) ensures !Answer(m) {
      NewAnswers(cfg, n, a, m);
    }
    hide Follows;
    FollowsOn(net, net', h, l, n');
  }

  /** What becomes of the other voter o as a follower of the actor. */
  lemma LeaderSide(cfg: Config, net: set<Message>, h: Past, n: Node, a: Action, o: Node)
    requires n.id in cfg.voters && n.id != o.id && NodeOk(net, h, n) && NodeOk(net, h, o) && Guard(cfg, n, a) && ReignsOk(cfg.voters, h)
    requires Done(net, n, o.id, o.term) || Follows(net, h, n.id, o)
    ensures var n', h', net' := NewNode(cfg, n, a), NextPast(n, a, h), net + NewMessages(cfg, n, a);
      o.id in h'.kept && (Done(net', n', o.id, o.term) || Follows(net', h', n'.id, o))
  {
    hide Follows, Done, ReignOk, Shape;
    var n', h', net' := NewNode(cfg, n, a), NextPast(n, a, h), net + NewMessages(cfg, n, a);
    RoleMoves(cfg, n, a);
    PastGrows(cfg.voters, net, h, n, a);
    if Done(net, n, o.id, o.term) {
      DoneStays(cfg, net, n, a, o.id, o.term);
    } else {
      FollowsLonger(cfg.voters, net, h, h', n.id, o);
      forall m | m in NewMessages(cfg, n, a) ensures !(Answer(m) && m.from == o.id) {
        NewAnswers(cfg, n, a, m);
      }
      FollowsOn(net, net', h', n.id, o);
    }
  }

  lemma OtherVoter(voters: set<Id>, i: Id) returns (o: Id)
    requires |voters| == 2 && i in voters
    ensures voters == {i, o} && i != o
  {
    assert |voters - {i}| == 1;
    o :| o in voters - {i};
    assert |voters - {i} - {o}| == 0;
    assert voters == {i, o};
  }

  lemma PhasesOk(cfg: Config, net0: set<Message>, c: State, h: Past, a: Action, o: Id)
    requires Inv(cfg, c, h) && Enabled(cfg, c, a) && Fair(net0, h, c.nodes[a.i], a) && net0 <= c.net && Supports(net0, h)
    requires cfg.voters == {a.i, o} && a.i != o
    ensures var c', h' := Effect(cfg, c, a), NextPast(c.nodes[a.i], a, h);
      && o in c'.nodes && a.i in c'.nodes && c'.nodes[o].id == o && c'.nodes[a.i].id == a.i && o in h'.kept && a.i in h'.kept
      && PhaseOk(c', h', a.i, o) && PhaseOk(c', h', o, a.i)
  {
    hide Follows, Done, Guard, NewNode, NewMessages, NextPast, NodeOk, Supports, Fair;
    var n, l := c.nodes[a.i], c.nodes[o];
    InvKept(cfg, c, h);
    assert PhaseOk(c, h, a.i, o) && PhaseOk(c, h, o, a.i);
    assert forall m | m in c.net && Answer(m) :: OfficeOk(c, m);
    RoleMoves(cfg, n, a);
    LeaderSide(cfg, c.net, h, n, a, l);
    FollowerSide(cfg, net0, c.net, h, n, a, l);
  }

  lemma ActionKeeps(cfg: Config, net0: set<Message>, c: State, h: Past, a: Action)
    requires Inv(cfg, c, h) && Enabled(cfg, c, a) && Fair(net0, h, c.nodes[a.i], a) && net0 <= c.net && Supports(net0, h)
    ensures Inv(cfg, Effect(cfg, c, a), NextPast(c.nodes[a.i], a, h))
  {
    hide PhaseOk, Guard, NewNode, NewMessages, NodeOk, Supports, Fair, ReignOk, MsgOk, OfficeOk;
    var n, c', h' := c.nodes[a.i], Effect(cfg, c, a), NextPast(c.nodes[a.i], a, h);
    var o := OtherVoter(cfg.voters, a.i);
    RoleMoves(cfg, n, a);
    GuardsGrow(cfg, n, a);
    PastGrows(cfg.voters, c.net, h, n, a);
    FairMeans(net0, h, n, a);
    ActorOk(cfg, c.net, c'.net, h, n, a);
    PastOfOthers(n, a, h);
    NodeStaysOk(c.net, c'.net, h, h', c.nodes[o], a.i);
    PhasesOk(cfg, net0, c, h, a, o);
    forall m | m in c'.net
      ensures MsgOk(cfg.voters, c'.net, h', m) && (Answer(m) ==> m.from in cfg.voters && m.from in c'.nodes) && OfficeOk(c', m)
    {
      if m !in c.net {
        NewMsgOk(cfg, c.net, h, n, a, m);
      }
      MsgStaysOk(cfg.voters, c.net, c'.net, h, h', m);
      AnswersFromVoters(cfg.voters, c'.net, h', m);
      OfficesOk(cfg, c, a, m);
    }
  }

  lemma GuardsGrow(cfg: Config, n: Node, a: Action)
    requires Guard(cfg, n, a)
    ensures (a.Win? ==> n.role.Candidate?) && (a.LeadAppend? ==> n.role.Leader?)
  {
  }

  lemma FairMeans(net0: set<Message>, h: Past, n: Node, a: Action)
    requires Fair(net0, h, n, a)
    ensures Consumed(a) <= net0 && (a.Emit? ==> forall m | m in a.out :: !m.Snap?)
    ensures a.Recover? ==> n.id in h.kept && h.kept[n.id] <= a.commit
  {
  }

  lemma PastOfOthers(n: Node, a: Action, h: Past)
    ensures var h' := NextPast(n, a, h);
      && (forall s: Slot | s.node != n.id :: (s in h'.reigns <==> s in h.reigns) && (s in h.reigns ==> h'.reigns[s] == h.reigns[s]))
      && (forall j | j != n.id && j in h.kept :: j in h'.kept && h'.kept[j] == h.kept[j])
  {
  }

  lemma AnswersFromVoters(voters: set<Id>, net: set<Message>, h: Past, m: Message)
    requires MsgOk(voters, net, h, m)
    ensures Answer(m) ==> m.from in voters
  {
  }

  // ---------------------------------------------------------------- whole events

  lemma SupportsStay(net0: set<Message>, h: Past, h': Past)
    requires Supports(net0, h) && Grows(h, h')
    ensures Supports(net0, h')
  {
  }

  lemma {:induction false} NetGrows(cfg: Config, c: State, i: Id, p: Path, c': State, k: nat)
    requires Leads(cfg, c, i, p, c') && k <= |p.acts|
    ensures p.states[k].net <= c'.net
    decreases |p.acts| - k
  {
    if k < |p.acts| {
      Runs.PathMoves(cfg, c, i, p, c', k);
      NetGrows(cfg, c, i, p, c', k + 1);
    }
  }

  /** The actions of one delivery. */
  lemma {:induction false} PathKeeps(cfg: Config, c: State, i: Id, p: Path, c': State, k: nat, h: Past) returns (h': Past)
    requires Leads(cfg, c, i, p, c') && k <= |p.acts| && i in cfg.voters && (forall m | m in c'.net :: !m.Snap?)
    requires Inv(cfg, p.states[k], h) && c.net <= p.states[k].net && Supports(c.net, h)
    ensures Inv(cfg, c', h') && Supports(c.net, h')
    ensures forall j | j in cfg.voters && (j != i || c'.nodes[i].term == p.states[k].nodes[i].term) :: h'.kept[j] == h.kept[j]
    ensures c'.nodes[i].term >= p.states[k].nodes[i].term
    decreases |p.acts| - k
  {
    if k == |p.acts| {
      h' := h;
    } else {
      var c1, a := p.states[k], p.acts[k];
      Runs.PathMoves(cfg, c, i, p, c', k);
      NetGrows(cfg, c, i, p, c', k + 1);
      hide Inv, Supports, NextPast, Guard, NewNode, NewMessages, NodeOk;
      var n := c1.nodes[i];
      var h1 := NextPast(n, a, h);
      MovesFair(cfg, c1, a, p.states[k + 1], c.net, c'.net, h);
      ActionKeeps(cfg, c.net, c1, h, a);
      InvGrows(cfg, c1, h, a);
      SupportsStay(c.net, h, h1);
      h' := PathKeeps(cfg, c, i, p, c', k + 1, h1);
      KeptMoves(cfg, n, a, h);
      InvKept(cfg, c1, h);
      InvKept(cfg, c', h');
    }
  }

  lemma MovesFair(cfg: Config, c: State, a: Action, c': State, net0: set<Message>, net1: set<Message>, h: Past)
    requires Moves(cfg, c, a, c') && c'.net <= net1 && (forall m | m in net1 :: !m.Snap?)
    requires Consumed(a) <= net0 && !a.Recover?
    ensures Fair(net0, h, c.nodes[a.i], a)
  {
    if a.Emit? {
      assert forall m | m in a.out :: m in c'.net;
    }
  }

  lemma InvGrows(cfg: Config, c: State, h: Past, a: Action)
    requires Inv(cfg, c, h) && Enabled(cfg, c, a)
    ensures Grows(h, NextPast(c.nodes[a.i], a, h))
  {
    hide NodeOk, NextPast, Guard;
    GuardsGrow(cfg, c.nodes[a.i], a);
    PastGrows(cfg.voters, c.net, h, c.nodes[a.i], a);
  }

  lemma KeptMoves(cfg: Config, n: Node, a: Action, h: Past)
    requires Guard(cfg, n, a)
    ensures var n', h' := NewNode(cfg, n, a), NextPast(n, a, h);
      && n.term <= n'.term
      && (forall j | j in h.kept && (j != n.id || n'.term == n.term) :: j in h'.kept && h'.kept[j] == h.kept[j])
  {
  }

  lemma InvKept(cfg: Config, c: State, h: Past)
    requires Inv(cfg, c, h)
    ensures forall j | j in cfg.voters :: j in h.kept && j in c.nodes && c.nodes[j].id == j && h.kept[j] <= c.nodes[j].commit
  {
    assert forall j | j in cfg.voters :: NodeOk(c.net, h, c.nodes[j]);
  }

  /** What the window demands, in terms of the reign the message belongs to. */
  lemma WindowSupports(voters: set<Id>, net0: set<Message>, net: set<Message>, h: Past, n: Node, m: Message)
    requires m.App? && InWindow(net0, n, m) && net0 <= net && m.from == n.id
    requires NodeOk(net, h, n) && ReignsOk(voters, h) && MsgOk(voters, net, h, m)
    ensures Slot(m.from, m.term) in h.reigns && Sendable(net, h.reigns[Slot(m.from, m.term)], m)
  {
    var r := h.reigns[Slot(m.from, m.term)];
    assert ReignOk(r, m.term);
    if m.index > r.start {
      assert TermAt(n.log, m.index) == n.term;
      var x :| x in net && Acks(x, n.id, m.to, n.term) && Quorum.Known(n.matched, m.to) <= x.index;
      assert 1 <= x.index;
    } else if m.index < r.start {
      assert TermAt(n.log, m.index + 1) != n.term;
      var x :| x in net0 && Rejects(x, n.id, m.to, n.term) && (x.index <= m.index + 1 || x.hint <= m.index);
      assert x in net;
    }
  }

  lemma SendableStays(net: set<Message>, net': set<Message>, r: Reign, m: Message)
    requires m.App? && Sendable(net, r, m) && net <= net'
    ensures Sendable(net', r, m)
  {
    if AckedTo(net, m.from, m.to, m.term, 1) {
      AckedOn(net, net', m.from, m.to, m.term, 1);
    }
    if x :| x in net && Rejects(x, m.from, m.to, m.term) && (x.index <= m.index + 1 || x.hint <= m.index) {
      assert x in net';
    }
  }

  lemma EventSupports(cfg: Config, c: State, h: Past, c': State)
    requires Inv(cfg, c', h) && Supports(c.net, h) && c.net <= c'.net && Windowed(cfg, c, c')
    ensures Supports(c'.net, h)
  {
    hide NodeOk, InWindow, Sendable, PhaseOk;
    forall m | m in c'.net && m.App?
      ensures Slot(m.from, m.term) in h.reigns && Sendable(c'.net, h.reigns[Slot(m.from, m.term)], m)
    {
      assert MsgOk(cfg.voters, c'.net, h, m);
      if m in c.net {
        SendableStays(c.net, c'.net, h.reigns[Slot(m.from, m.term)], m);
      } else {
        assert NodeOk(c'.net, h, c'.nodes[m.from]);
        WindowSupports(cfg.voters, c.net, c'.net, h, c'.nodes[m.from], m);
      }
    }
  }

  ghost predicate NoSnaps(net: set<Message>) {
    forall m | m in net :: !m.Snap?
  }

  lemma EventKeeps(cfg: Config, c: State, b: Election.Ballots, h: Past, c': State) returns (h': Past)
    requires Election.Inv(cfg, c, b) && Inv(cfg, c, h) && Supports(c.net, h) && WellFormed(cfg, c')
    requires Next(cfg, c, c') && Windowed(cfg, c, c')
    requires forall i | i in cfg.voters :: c.nodes[i].term == c'.nodes[i].term ==> i in h.kept && h.kept[i] <= c'.nodes[i].commit
    ensures Inv(cfg, c', h') && Supports(c'.net, h')
    ensures forall i | i in cfg.voters ::
      c.nodes[i].term <= c'.nodes[i].term && (c.nodes[i].term == c'.nodes[i].term ==> h'.kept[i] == h.kept[i])
  {
    var e :| Happens(cfg, c, e, c');
    NoNewSnaps(cfg, c, h, c');
    EventShape(cfg, c, e, c');
    hide Inv, Supports, Happens, Windowed, Next, Election.Inv;
    if e.Deliver? {
      var p := Refinement.DeliverRefines(cfg, c, b, e, c');
      PathStarts(cfg, c, e.i, p, c');
      h' := PathKeeps(cfg, c, e.i, p, c', 0, h);
    } else {
      Refinement.RestartRefines(cfg, c, e, c');
      ActionKeeps(cfg, c.net, c, h, Recover(e.i, e.commit));
      h' := h;
      SupportsStay(c.net, h, h');
    }
    InvKept(cfg, c', h');
    EventSupports(cfg, c, h', c');
  }

  lemma PathStarts(cfg: Config, c: State, i: Id, p: Path, c': State)
    requires Leads(cfg, c, i, p, c')
    ensures p.states[0] == c
  {
  }

  lemma EventShape(cfg: Config, c: State, e: Event, c': State)
    requires WellFormed(cfg, c) && Happens(cfg, c, e, c')
    ensures e.i in cfg.voters && c.net <= c'.net
    ensures forall j | j in cfg.voters && j != e.i :: j in c'.nodes && c'.nodes[j] == c.nodes[j]
    ensures e.Restart? ==> c'.nodes[e.i].term == c.nodes[e.i].term && c'.nodes[e.i].commit == e.commit
  {
  }

  lemma NoNewSnaps(cfg: Config, c: State, h: Past, c': State)
    requires Inv(cfg, c, h) && WellFormed(cfg, c') && Windowed(cfg, c, c')
    ensures NoSnaps(c'.net)
  {
    forall m | m in c'.net ensures !m.Snap? {
      if m in c.net {
        IsNoSnap(cfg.voters, c.net, h, m);
      }
    }
  }

  // ---------------------------------------------------------------- whole runs

  function FirstPast(c: State): Past {
    Past(map[], map i | i in c.nodes :: c.nodes[i].commit)
  }

  lemma InitInv(cfg: Config, boot: seq<Entry>, c: State)
    requires Init(cfg, boot, c) && |cfg.voters| == 2
    ensures Inv(cfg, c, FirstPast(c)) && Supports(c.net, FirstPast(c))
  {
    hide Shape, Done, Tracks, NodeOk;
    InitMeans(cfg, boot, c);
    hide Init, FirstNode, FirstPast, BootLog;
    var h := FirstPast(c);
    forall i | i in cfg.voters ensures NodeOk(c.net, h, c.nodes[i]) {
      BootIsOk(c.net, h, c.nodes[i], boot);
    }
    forall l, f | l in cfg.voters && f in cfg.voters && l != f ensures Follows(c.net, h, l, c.nodes[f]) {
      Anew(c.net, h, l, c.nodes[f]);
    }
  }

  lemma InitMeans(cfg: Config, boot: seq<Entry>, c: State)
    requires Init(cfg, boot, c)
    ensures WellFormed(cfg, c) && c.net == {} && BootLog(boot) && FirstPast(c).reigns == map[]
    ensures forall i | i in cfg.voters ::
      && c.nodes[i] == FirstNode(i, boot) && c.nodes[i].commit == |boot|
      && i in FirstPast(c).kept && FirstPast(c).kept[i] == |boot|
  {
  }

  lemma BootIsOk(net: set<Message>, h: Past, n: Node, boot: seq<Entry>)
    requires BootLog(boot) && n == FirstNode(n.id, boot) && n.id in h.kept && h.kept[n.id] == |boot| && h.reigns == map[]
    ensures NodeOk(net, h, n)
  {
  }

  lemma RunStep(cfg: Config, boot: seq<Entry>, run: seq<State>, k: nat)
    requires IsRun(cfg, boot, run) && Disciplined(cfg, run) && k + 1 < |run|
    ensures WellFormed(cfg, run[k]) && WellFormed(cfg, run[k + 1])
    ensures Windowed(cfg, run[k], run[k + 1]) && Next(cfg, run[k], run[k + 1])
  {
  }

  lemma SavedStep(cfg: Config, run: seq<State>, k: nat)
    requires (forall q | 0 <= q < |run| :: WellFormed(cfg, run[q])) && Disciplined(cfg, run) && k + 1 < |run|
    ensures forall i | i in cfg.voters ::
      && Saved(cfg, run, k + 1, i) <= run[k + 1].nodes[i].commit
      && Saved(cfg, run, k + 1, i) ==
           if run[k].nodes[i].term < run[k + 1].nodes[i].term then run[k + 1].nodes[i].commit else Saved(cfg, run, k, i)
  {
    hide Windowed;
    assert WellFormed(cfg, run[k]) && WellFormed(cfg, run[k + 1]);
  }

  lemma {:induction false} InvAt(cfg: Config, boot: seq<Entry>, run: seq<State>, k: nat) returns (h: Past)
    requires IsRun(cfg, boot, run) && |cfg.voters| == 2 && Disciplined(cfg, run) && k < |run|
    ensures Inv(cfg, run[k], h) && Supports(run[k].net, h)
    ensures forall i | i in cfg.voters :: i in h.kept && h.kept[i] <= Saved(cfg, run, k, i)
  {
    hide Inv, Supports, Windowed, Next, Election.Inv, Disciplined, Init;
    if k == 0 {
      InitInv(cfg, boot, run[0]);
      h := FirstPast(run[0]);
      InvKept(cfg, run[0], h);
    } else {
      var p := k - 1;
      var h0 := InvAt(cfg, boot, run, p);
      var b, _ := Runs.VotesAt(cfg, boot, run, p, p);
      RunStep(cfg, boot, run, p);
      SavedStep(cfg, run, p);
      hide Saved, IsRun, WellFormed;
      h := EventKeeps(cfg, run[p], b, h0, run[k]);
      InvKept(cfg, run[k], h);
    }
  }

  // ---------------------------------------------------------------- nothing is thrown

  lemma {:induction false} AppendThrowsNot(cfg: Config, net: set<Message>, h: Past, n: Node, m: Message)
    requires NodeOk(net, h, n) && ReignsOk(cfg.voters, h) && MsgOk(cfg.voters, net, h, m) && m.App? && n.term <= m.term
    ensures !LogFatal(n, m)
  {
    hide Merge, FindConflict;
    if Accepts(n, m) {
      var r := h.reigns[Slot(m.from, m.term)];
      assert ReignOk(r, m.term);
      MergeTerms(n.log, r.log, m.term, m.index, m.entries);
      ConflictTerms(n.log, r.log, m.term, m.index, m.entries);
    }
  }

  /** A heartbeat never commits more than the follower holds. */
  lemma BeatThrowsNot(cfg: Config, c: State, h: Past, n: Node, m: Message)
    requires Inv(cfg, c, h) && n.id in cfg.voters && n == c.nodes[n.id]
    requires m in c.net && m.Heartbeat? && m.to == n.id && n.term <= m.term
    ensures m.commit <= |n.log|
  {
    hide Shape, ReignOk, Joined, Apart;
    assert MsgOk(cfg.voters, c.net, h, m) && NodeOk(c.net, h, n);
    if m.commit > 0 {
      var x :| x in c.net && Acks(x, m.from, n.id, m.term) && m.commit <= x.index;
      assert OfficeOk(c, x);
      assert PhaseOk(c, h, m.from, n.id);
      assert Answered(c.net, m.from, n.id, n.term);
    }
  }

  lemma NoSnapFatal(cfg: Config, n: Node, m: Message)
    requires Fatal(cfg, n, m) && !m.Snap?
    ensures m.App? || m.Heartbeat?
  {
  }

  lemma FatalOfLog(cfg: Config, n: Node, m: Message)
    requires m.App? || m.Heartbeat?
    ensures Fatal(cfg, n, m) ==> n.term <= m.term && LogFatal(n, m)
  {
  }

  lemma ThrowsNot(cfg: Config, c: State, h: Past, i: Id, m: Message)
    requires Inv(cfg, c, h) && i in cfg.voters && m in c.net && !m.Local() && m.to == i
    ensures !Fatal(cfg, c.nodes[i], m)
  {
    var n := c.nodes[i];
    assert NodeOk(c.net, h, n) && MsgOk(cfg.voters, c.net, h, m);
    hide Fatal, NodeOk, ReignsOk, Shape, PhaseOk;
    if Fatal(cfg, n, m) {
      NoSnapFatal(cfg, n, m);
      FatalOfLog(cfg, n, m);
      if m.App? {
        AppendThrowsNot(cfg, c.net, h, n, m);
      } else {
        BeatThrowsNot(cfg, c, h, n, m);
      }
    }
  }

  /** Two voters never throw out of their logs in any disciplined run, exposed or not. */
  lemma TwoThrowNot(cfg: Config, boot: seq<Entry>, run: seq<State>, k: nat, i: Id, m: Message)
    requires IsRun(cfg, boot, run) && |cfg.voters| == 2 && Disciplined(cfg, run)
    requires k < |run| && i in cfg.voters && m in run[k].net && !m.Local() && m.to == i
    ensures !Fatal(cfg, run[k].nodes[i], m)
  {
    var h := InvAt(cfg, boot, run, k);
    ThrowsNot(cfg, run[k], h, i, m);
  }
}
