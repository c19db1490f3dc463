/**
 * What a leader's step does for its followers (raft-kv/raft/raft.cpp:506-785, 1238-1343): who is sent
 * how much, what becomes of each follower's progress, of the leader's books and of a transfer. Said in
 * terms of the fields of the progress records, of every step that RaftCore.LeaderFlow describes.
 */
module Pacing {
  import opened Proto
  import opened NodeSpec
  import opened RaftCore
  import Progress
  import Quota
  import Quorum

  // ---------------------------------------------------------------- one message

  /** A follower that is left alone: it is paused, or needs a snapshot and has not been heard from. */
  predicate LeftAlone(p: Progress.Prog, base: nat) {
    || p.mode.Snapshot? || (p.mode.Probe? && p.paused) || (p.mode.Replicate? && |p.items| == p.size)
    || (p.next <= base && !p.active)
  }

  /** One append from next on, or one snapshot; the progress takes replicated entries for received, and waits otherwise. */
  ghost predicate SentOne(p: Progress.Prog, p': Progress.Prog, sent: seq<Message>) {
    && |sent| == 1
    && match sent[0]
       case App(_, _, _, index, _, entries, _) =>
         && index == p.next - 1
         && p' == if entries == [] then p
                  else if p.mode.Replicate? then p.(next := p.next + |entries|, items := p.items + [index + |entries|])
                  else p.(paused := true)
       case Snap(_, _, _, index, _, _) =>
         p' == p.(mode := Progress.Snapshot, paused := false, pending := index, items := [])
       case _ => false
  }

  ghost predicate Turn(p: Progress.Prog, p': Progress.Prog, sent: seq<Message>, base: nat) {
    if LeftAlone(p, base) then sent == [] && p' == p else SentOne(p, p', sent)
  }

  lemma TriedMeans(p: Progress.Prog, p': Progress.Prog, sent: seq<Message>, base: nat)
    requires Tried(p, p', sent, base)
    ensures Turn(p, p', sent, base)
  {
  }

  // ---------------------------------------------------------------- proposals

  /** Nothing is taken while the leadership is being handed over. */
  lemma NoProposalInTransfer(voters: set<Id>, n: Node, f: Flow, entries: seq<Entry>, n': Node, f': Flow, sent: seq<Message>, base: nat)
    requires n.id in voters && ProposalFlow(voters, n, f, entries, n', f', sent, base) && f.transferee != NONE
    ensures n' == n && f' == f && sent == []
  {
  }

  lemma {:induction false} LighterPayload(a: seq<Entry>, b: seq<Entry>)
    requires |a| == |b| && forall i | 0 <= i < |a| :: |a[i].data| <= |b[i].data|
    ensures Quota.Payload(a) <= Quota.Payload(b)
    decreases |a|
  {
    if a != [] {
      LighterPayload(a[..|a| - 1], b[..|b| - 1]);
    }
  }

  /** Otherwise a proposal is taken if it fits, or if nothing waits to be committed; and then it is counted. */
  lemma {:induction false} ProposalWeighed(voters: set<Id>, n: Node, f: Flow, entries: seq<Entry>, n': Node, f': Flow, sent: seq<Message>, base: nat)
    requires n.id in voters && ProposalFlow(voters, n, f, entries, n', f', sent, base) && f.transferee == NONE
    requires f.applied <= |n.log| && entries != []
    ensures f.uncommitted == 0 || f.uncommitted + Quota.Payload(entries) <= f.quota ==> n'.log != n.log
    ensures n'.log == n.log ==> n' == n && f' == f.(pending := f'.pending) && sent == []
    ensures n'.log != n.log ==>
      && |n'.log| == |n.log| + |entries|
      && f'.uncommitted == f.uncommitted + Quota.Payload(n'.log[|n.log|..])
      && (f.uncommitted == 0 || f'.uncommitted <= f.quota)
  {
    hide AllTried, SentTo, NodeSpec.AppendEntry, Quota.Screen, Quota.Payload;
    var ents := Quota.Screen(entries, |n.log|, f.applied, f.pending).0;
    Quota.ScreenAllowsOne(entries, |n.log|, f.applied, f.pending);
    var own := Stamp(n.term, |n.log|, ents);
    LighterPayload(own, entries);
    AppendedLog(voters, n, ents);
    assert (n.log + own)[|n.log|..] == own;
  }

  /** The first configuration change is in the log if none may be pending, as it was proposed; all others are emptied. */
  lemma {:induction false} ChangeTaken(voters: set<Id>, n: Node, f: Flow, entries: seq<Entry>, n': Node, f': Flow, sent: seq<Message>, base: nat)
    requires n.id in voters && ProposalFlow(voters, n, f, entries, n', f', sent, base)
    requires f.applied <= |n.log| && n'.log != n.log
    ensures |n'.log| == |n.log| + |entries|
    ensures forall i | 0 <= i < |entries| && !entries[i].kind.ConfChange? ::
      n'.log[|n.log| + i] == Entry(entries[i].kind, n.term, |n.log| + 1 + i, entries[i].data)
    ensures f.pending > f.applied ==> forall i | 0 <= i < |entries| && entries[i].kind.ConfChange? ::
      n'.log[|n.log| + i] == Entry(Normal, n.term, |n.log| + 1 + i, [])
    ensures f.pending <= f.applied ==> forall k: nat | Quota.FirstChange(entries, k) ::
      && n'.log[|n.log| + k] == Entry(ConfChange, n.term, |n.log| + k + 1, entries[k].data)
      && forall i | 0 <= i < |entries| && i != k && entries[i].kind.ConfChange? ::
           n'.log[|n.log| + i] == Entry(Normal, n.term, |n.log| + 1 + i, [])
  {
    hide AllTried, SentTo, NodeSpec.AppendEntry, Quota.Screen, Quota.Payload;
    var ents := Quota.Screen(entries, |n.log|, f.applied, f.pending).0;
    Quota.ScreenKeeps(entries, |n.log|, f.applied, f.pending);
    TakenAt(voters, n, f, entries, n', f', sent, base, ents);
    hide ProposalFlow;
    forall k: nat | f.pending <= f.applied && Quota.FirstChange(entries, k)
      ensures ents[k] == entries[k]
      ensures forall i | 0 <= i < |entries| && i != k && entries[i].kind.ConfChange? :: ents[i] == NOOP
    {
      Quota.ScreenLetsFirstThrough(entries, |n.log|, f.applied, f.pending, k);
    }
  }

  /** What is taken is what was screened, numbered. */
  lemma {:induction false} TakenAt(voters: set<Id>, n: Node, f: Flow, entries: seq<Entry>, n': Node, f': Flow, sent: seq<Message>, base: nat,
                                   ents: seq<Entry>)
    requires n.id in voters && ProposalFlow(voters, n, f, entries, n', f', sent, base) && n'.log != n.log
    requires ents == Quota.Screen(entries, |n.log|, f.applied, f.pending).0
    ensures |n'.log| == |n.log| + |entries| && |ents| == |entries|
    ensures forall i | 0 <= i < |entries| ::
      n'.log[|n.log| + i] == Entry(ents[i].kind, n.term, |n.log| + 1 + i, ents[i].data)
  {
    hide AllTried, SentTo, NodeSpec.AppendEntry, Quota.Screen, Quota.Payload, Quota.Admits;
    AppendedLog(voters, n, ents);
    var own := Stamp(n.term, |n.log|, ents);
    assert forall i | 0 <= i < |entries| :: (n.log + own)[|n.log| + i] == own[i];
  }

  /** And it is remembered where, even if the proposal is dropped for its size. */
  lemma {:induction false} ChangeRemembered(voters: set<Id>, n: Node, f: Flow, entries: seq<Entry>, n': Node, f': Flow, sent: seq<Message>, base: nat)
    requires n.id in voters && ProposalFlow(voters, n, f, entries, n', f', sent, base)
    requires f.applied <= |n.log| && f.transferee == NONE
    ensures f.pending <= f.applied ==> forall k: nat | Quota.FirstChange(entries, k) :: f'.pending == |n.log| + k + 1
    ensures f.pending > f.applied || (forall i | 0 <= i < |entries| :: !entries[i].kind.ConfChange?) ==> f'.pending == f.pending
  {
    hide AllTried, SentTo, NodeSpec.AppendEntry, Quota.Screen, Quota.Payload;
    Quota.ScreenKeeps(entries, |n.log|, f.applied, f.pending);
    forall k: nat | f.pending <= f.applied && Quota.FirstChange(entries, k) ensures f'.pending == |n.log| + k + 1 {
      Quota.ScreenLetsFirstThrough(entries, |n.log|, f.applied, f.pending, k);
    }
  }

  /** What is taken goes to every other voter whose turn it is. */
  lemma ProposalSent(voters: set<Id>, n: Node, f: Flow, entries: seq<Entry>, n': Node, f': Flow, sent: seq<Message>, base: nat)
    requires n.id in voters && ProposalFlow(voters, n, f, entries, n', f', sent, base) && n' != n
    ensures forall j | j in voters && j != n.id ::
      j in f.prs && j in f'.prs && Turn(f.prs[j], f'.prs[j], SentTo(sent, j), base)
    ensures n.id in f.prs && n.id in f'.prs
    ensures f'.prs[n.id].matched == Max(f.prs[n.id].matched, |n'.log|) && SentTo(sent, n.id) == []
  {
    hide SentTo, NodeSpec.AppendEntry, Quota.Screen, Quota.Payload;
    forall j | j in voters && j != n.id ensures j in f.prs && j in f'.prs && Turn(f.prs[j], f'.prs[j], SentTo(sent, j), base) {
      assert j in voters - {n.id};
      TriedMeans(f.prs[j], f'.prs[j], SentTo(sent, j), base);
    }
  }

  // ---------------------------------------------------------------- answers

  /** An answer to a heartbeat: the follower is alive, one slot of a full window is free, and it gets what it lacks. */
  lemma HeartbeatPaced(voters: set<Id>, n: Node, f: Flow, m: Message, n': Node, f': Flow, sent: seq<Message>, base: nat)
    requires n.id in voters && m.HeartbeatResp? && LeaderFlow(voters, n, f, m, n', f', sent, base)
    requires m.from in f.prs && f.prs[m.from].Ok()
    ensures m.from in f'.prs && f' == f.(prs := f.prs[m.from := f'.prs[m.from]])
    ensures var p := f.prs[m.from];
      var q := p.(active := true, paused := false,
        items := if p.mode.Replicate? && |p.items| == p.size then p.items[1..] else p.items);
      if p.matched < |n.log| then Turn(q, f'.prs[m.from], sent, base) else f'.prs[m.from] == q && sent == []
  {
    var p := f.prs[m.from];
    Progress.HeartbeatMeans(p);
    if p.matched < |n.log| {
      TriedMeans(p.HeartbeatAnswered(), f'.prs[m.from], sent, base);
    }
  }

  /** A rejection: if it is not out of date the follower is probed lower at once. */
  lemma RejectionPaced(voters: set<Id>, n: Node, f: Flow, m: Message, n': Node, f': Flow, sent: seq<Message>, base: nat)
    requires n.id in voters && m.AppResp? && m.reject && LeaderFlow(voters, n, f, m, n', f', sent, base)
    requires m.from in f.prs && f.prs[m.from].Ok()
    ensures m.from in f'.prs && f' == f.(prs := f.prs[m.from := f'.prs[m.from]])
    ensures var p, p' := f.prs[m.from].(active := true), f'.prs[m.from];
      if p.mode.Replicate? then
        if m.index <= p.matched then p' == p && sent == []
        else Turn(p.(mode := Progress.Probe, next := p.matched + 1, paused := false, pending := 0, items := []), p', sent, base)
      else if m.index != p.next - 1 then p' == p && sent == []
      else Turn(p.(next := Max(1, Min(m.index, m.hint + 1)), paused := false), p', sent, base)
  {
    var p := f.prs[m.from].(active := true);
    Progress.RejectedMeans(p, m.index, m.hint);
    if p.Rejects(m.index) {
      TriedMeans(p.Rejected(m.index, m.hint), f'.prs[m.from], sent, base);
    }
  }

  /** An acknowledgement that is no news shows that the follower is alive, and no more. */
  lemma StaleAckPaced(voters: set<Id>, n: Node, f: Flow, m: Message, n': Node, f': Flow, sent: seq<Message>, base: nat)
    requires n.id in voters && m.AppResp? && !m.reject && LeaderFlow(voters, n, f, m, n', f', sent, base)
    requires m.from in f.prs && f.prs[m.from].Ok() && m.index <= f.prs[m.from].matched
    ensures f' == f.(prs := f.prs[m.from := f.prs[m.from].(active := true, next := Max(f.prs[m.from].next, m.index + 1))])
    ensures sent == []
  {
    Progress.AckedMeans(f.prs[m.from].(active := true), m.index);
  }

  /** What the acknowledgement of index makes of a follower's progress, before anything is sent. */
  ghost predicate Noted(p: Progress.Prog, q: Progress.Prog, index: nat) {
    && q.matched == index && q.active && q.size == p.size
    && (p.mode.Probe? ==> q.mode.Replicate? && q.next == index + 1 && q.items == [])
    && (p.mode.Replicate? ==>
          && q.mode.Replicate? && q.next == Max(p.next, index + 1) && |q.items| <= |p.items|
          && q.items == p.items[|p.items| - |q.items|..] && forall i | 0 <= i < |p.items| :: p.items[i] > index <==> i >= |p.items| - |q.items|)
    && (p.mode.Snapshot? ==> if index >= p.pending then q.mode.Probe? && q.next == index + 1 && !q.paused && q.items == []
                             else q.mode.Snapshot? && q.pending == p.pending)
  }

  lemma AckNoted(p: Progress.Prog, index: nat)
    requires p.Ok() && index > p.matched
    ensures Noted(p, p.(active := true).Acked(index), index)
  {
    Progress.AckedMeans(p.(active := true), index);
  }

  /**
   * News from a follower. A new commit index goes to everyone in turn; else the follower alone is sent to,
   * once if it had been waiting, and then all that its window takes. The heir of the leadership is told so
   * when it has the whole log.
   */
  lemma AckPaced(voters: set<Id>, n: Node, f: Flow, m: Message, n': Node, f': Flow, sent: seq<Message>, base: nat)
    returns (q: Progress.Prog, mid: Progress.Prog, first: seq<Message>, rest: seq<Message>)
    requires n.id in voters && m.AppResp? && !m.reject && LeaderFlow(voters, n, f, m, n', f', sent, base)
    requires n'.id == n.id && m.from in voters && m.from != n.id
    requires m.from in f.prs && f.prs[m.from].Ok() && m.index > f.prs[m.from].matched
    ensures m.from in f'.prs && f' == f.(prs := f'.prs) && Noted(f.prs[m.from], q, m.index)
    ensures n'.commit == n.commit ==>
      && f'.prs == f.prs[m.from := f'.prs[m.from]]
      && if Waited(f.prs[m.from]) then Turn(q, mid, first, base) else mid == q && first == []
    ensures n'.commit != n.commit ==>
      && Turn(q, mid, SentTo(first, m.from), base)
      && forall j | j in voters && j != n.id && j != m.from ::
           j in f.prs && j in f'.prs && Turn(f.prs[j], f'.prs[j], SentTo(first, j), base)
    ensures Drained(n'.log, m.from, mid, f'.prs[m.from], rest, base)
    ensures sent == first + rest +
      if f.transferee == m.from && f'.prs[m.from].matched == |n'.log| then [TimeoutNow(n.id, m.from, n'.term)] else []
  {
    hide Tried, SentTo, Flushed, Noted, Progress.Prog.Acked, Turn, Drained;
    var pr := f.prs[m.from].(active := true);
    q := pr.Acked(m.index);
    AckNoted(f.prs[m.from], m.index);
    var before := f.prs[m.from := q];
    var midp: Progs;
    midp, first, rest :|
      && Served(voters, n', m.from, n'.commit != n.commit, pr.IsPaused(), before, midp, f'.prs, first, rest, base)
      && sent == first + rest + Farewell(n', f.transferee, m.from, f'.prs[m.from].matched);
    mid := midp[m.from];
    if n'.commit != n.commit {
      forall j | j in voters && j != n.id
        ensures j in before && j in midp && Turn(before[j], midp[j], SentTo(first, j), base)
      {
        assert j in voters - {n.id};
        TriedMeans(before[j], midp[j], SentTo(first, j), base);
      }
    } else if pr.IsPaused() {
      TriedMeans(q, mid, first, base);
    }
    FlushedMeans(n'.log, m.from, mid, f'.prs[m.from], rest, base);
  }

  /**
   * All that the window takes has been sent, each entry once and in order, and nothing stops it but a window
   * that is full or a probe that is out, the end of the log, or entries that are gone.
   */
  ghost predicate Drained(log: seq<Entry>, j: Id, p: Progress.Prog, p': Progress.Prog, sent: seq<Message>, base: nat) {
    && (Waited(p') || p'.next > |log| || p'.next <= base)
    && (forall i | 0 <= i < |sent| :: !sent[i].Local() && sent[i].to == j)
    && (p.mode.Replicate? ==>
         && p'.mode.Replicate? && 1 <= p.next <= p'.next <= |log| + 1 && |sent| == |p'.items| - |p.items|
         && Consecutive(sent, p.next, p'.next) && Carried(sent) == log[p.next - 1..p'.next - 1])
    && (!p.mode.Replicate? ==> p'.next == p.next && |sent| <= 1 && (p.mode.Snapshot? ==> sent == []))
  }

  lemma FlushedMeans(log: seq<Entry>, j: Id, p: Progress.Prog, p': Progress.Prog, sent: seq<Message>, base: nat)
    requires Flushed(log, j, p, p', sent, base)
    ensures Drained(log, j, p, p', sent, base)
  {
    hide Consecutive, Carried;
  }

  /** Paused, as seen by the one who acknowledges. */
  predicate Waited(p: Progress.Prog) {
    p.mode.Snapshot? || (p.mode.Probe? && p.paused) || (p.mode.Replicate? && |p.items| == p.size)
  }

  // ---------------------------------------------------------------- reports, transfer, quorum

  /** A report about a snapshot, or that a follower cannot be reached, moves that follower's progress only, and sends nothing. */
  lemma ReportPaced(voters: set<Id>, n: Node, f: Flow, m: Message, n': Node, f': Flow, sent: seq<Message>, base: nat)
    requires n.id in voters && (m.SnapStatus? || m.Unreachable?) && LeaderFlow(voters, n, f, m, n', f', sent, base)
    ensures sent == [] && (m.from !in f.prs ==> f' == f)
    ensures m.from in f.prs ==> m.from in f'.prs && f' == f.(prs := f.prs[m.from := f'.prs[m.from]])
    ensures m.from in f.prs && m.SnapStatus? ==>
      var p, p' := f.prs[m.from], f'.prs[m.from];
      if !p.mode.Snapshot? then p' == p
      else p' == p.(mode := Progress.Probe, paused := true, pending := 0, items := [],
                    next := if m.reject then p.matched + 1 else Max(p.matched, p.pending) + 1)
    ensures m.from in f.prs && m.Unreachable? ==>
      var p, p' := f.prs[m.from], f'.prs[m.from];
      if !p.mode.Replicate? then p' == p
      else p' == p.(mode := Progress.Probe, paused := false, pending := 0, items := [], next := p.matched + 1)
  {
    if m.from in f.prs && m.SnapStatus? {
      Progress.ReportMeans(f.prs[m.from], m.reject);
    } else if m.from in f.prs {
      Progress.UnreachableMeans(f.prs[m.from]);
    }
  }

  /**
   * A transfer: asked for the same heir again, or by a stranger, nothing happens; asked for itself, the leader
   * stays; any other becomes the heir, and is told at once if it has the whole log, and caught up if not.
   */
  lemma TransferPaced(voters: set<Id>, n: Node, f: Flow, m: Message, n': Node, f': Flow, sent: seq<Message>, base: nat)
    requires n.id in voters && m.TransferLeader? && LeaderFlow(voters, n, f, m, n', f', sent, base) && m.from != NONE
    ensures m.from !in f.prs || m.from == f.transferee ==> f' == f && sent == []
    ensures m.from in f.prs && m.from != f.transferee && m.from == n.id ==> f' == f.(transferee := NONE) && sent == []
    ensures m.from in f.prs && m.from != f.transferee && m.from != n.id ==>
      && m.from in f'.prs && f' == f.(transferee := m.from, prs := f.prs[m.from := f'.prs[m.from]])
      && if f.prs[m.from].matched == |n.log| then f'.prs == f.prs && sent == [TimeoutNow(n.id, m.from, n.term)]
         else Turn(f.prs[m.from], f'.prs[m.from], sent, base)
  {
    hide Turn;
    if m.from in f.prs && m.from != f.transferee && m.from != n.id {
      if f.prs[m.from].matched != |n.log| {
        TriedMeans(f.prs[m.from], f'.prs[m.from], sent, base);
      } else {
        assert f.prs[m.from := f.prs[m.from]] == f.prs;
      }
    }
  }

  /** A leader stays in office exactly if it has heard from more than half of the voters, itself included. */
  lemma QuorumPaced(voters: set<Id>, n: Node, f: Flow, m: Message, n': Node, f': Flow, sent: seq<Message>, base: nat)
    requires n.id in voters && m.CheckQuorum? && n.role.Leader? && LeaderFlow(voters, n, f, m, n', f', sent, base)
    ensures sent == []
    ensures var heard := set j | j in voters && (j == n.id || (j in f.prs && f.prs[j].active));
      if 2 * |heard| > |voters| then n' == n && f' == f else n'.role.Follower? && n'.term == n.term && n'.lead == NONE
  {
    assert Heard(n.id, f.prs, voters) == set j | j in voters && (j == n.id || (j in f.prs && f.prs[j].active));
  }

  /** A new leader probes everyone but itself right behind its log, and has heard from nobody yet. */
  lemma ReignBegins(voters: set<Id>, id: Id, last: nat, size: nat, j: Id)
    requires id in voters && j in voters
    ensures var prs := OwnReplicates(FreshProgs(voters, id, last, size), id, last + 1);
      && (forall k :: k in prs <==> k in voters)
      && (j != id ==> prs[j] == Progress.Prog(0, last + 1, Progress.Probe, false, 0, false, size, []))
      && (j == id ==> prs[j] == Progress.Prog(last + 1, last + 2, Progress.Replicate, false, 0, false, size, []))
  {
  }

  /** What makes a node put off its election: any configuration change among what is committed and not applied. */
  lemma WaitingMeans(ents: seq<Entry>)
    ensures HasConf(ents) <==> exists i :: 0 <= i < |ents| && ents[i].kind.ConfChange?
  {
    if i :| 0 <= i < |ents| && ents[i].kind.ConfChange? {
      assert ents[i] in ents;
    }
  }
}
