/**
 * One raft node as the object the source makes it (raft-kv/raft/raft.cpp). Its abstract value,
 * View(), is a NodeSpec.Node, and every method does to the view what NodeSpec says.
 *
 * The follower set is fixed, and progress records are held by value; see modules Progress and
 * Server for the objects behind them and for what happens between two steps.
 */
module RaftCore {
  import opened Proto
  import opened Sizes
  import opened LogSpec
  import opened Storage
  import opened UnstableLog
  import opened RaftLog
  import opened LogWindow
  import opened NodeSpec
  import Quorum
  import Progress
  import CommitIndex
  import Quota

  type Progs = map<Id, Progress.Prog>

  /** RaftLog::unlimited. */
  const UNLIMITED: nat := 0xFFFF_FFFF_FFFF_FFFF

  // ---------------------------------------------------------------- views of the maps

  function Granted(votes: map<Id, bool>): set<Id> { set j | j in votes && votes[j] }

  function Refused(votes: map<Id, bool>): set<Id> { set j | j in votes && !votes[j] }

  /** What is known of each voter; the node always knows itself. */
  function Matched(id: Id, prs: Progs): map<Id, nat> {
    map j | j in prs && (j == id || prs[j].matched > 0) :: prs[j].matched
  }

  function FreshProgs(voters: set<Id>, id: Id, last: nat, size: nat): Progs {
    map j | j in voters :: Progress.FreshProg(if j == id then last else 0, last + 1, size)
  }

  ghost predicate ProgsOk(voters: set<Id>, prs: Progs, size: nat) {
    && (forall j :: j in prs <==> j in voters)
    && (forall j | j in voters :: prs[j].Ok() && prs[j].size == size)
  }

  /** A leader never believes a follower to be ahead of it. */
  ghost predicate Bounded(voters: set<Id>, prs: Progs, last: nat)
    requires forall j | j in voters :: j in prs
  {
    forall j | j in voters :: prs[j].matched <= last && prs[j].next <= last + 1 && prs[j].pending <= last
  }

  function Since(msgs: seq<Message>, k: nat): set<Message>
    requires k <= |msgs|
  {
    set m | m in msgs[k..]
  }

  lemma VotesSplit(votes: map<Id, bool>)
    ensures |votes| == |Granted(votes)| + |Refused(votes)|
  {
    assert votes.Keys == Granted(votes) + Refused(votes);
  }

  lemma PollSplits(votes: map<Id, bool>, from: Id, v: bool)
    requires from !in votes
    ensures Granted(votes[from := v]) == if v then Granted(votes) + {from} else Granted(votes)
    ensures Refused(votes[from := v]) == if v then Refused(votes) else Refused(votes) + {from}
  {
  }

  lemma NoVotes()
    ensures Granted(map[]) == {} && Refused(map[]) == {}
  {
  }

  lemma MatchedFresh(voters: set<Id>, id: Id, last: nat, size: nat)
    requires id in voters
    ensures Matched(id, FreshProgs(voters, id, last, size)) == map[id := last]
  {
  }

  lemma FreshOk(voters: set<Id>, id: Id, last: nat, size: nat)
    requires size >= 1
    ensures ProgsOk(voters, FreshProgs(voters, id, last, size), size)
    ensures Bounded(voters, FreshProgs(voters, id, last, size), last)
    ensures id in voters ==> FreshProgs(voters, id, last, size)[id].items == []
  {
  }

  /** Replacing one progress record keeps the rest. */
  lemma ProgsUpdate(voters: set<Id>, prs: Progs, size: nat, j: Id, p: Progress.Prog)
    requires ProgsOk(voters, prs, size) && j in voters && p.Ok() && p.size == size
    ensures ProgsOk(voters, prs[j := p], size)
  {
  }

  lemma BoundedUpdate(voters: set<Id>, prs: Progs, last: nat, last': nat, j: Id, p: Progress.Prog)
    requires (forall j | j in voters :: j in prs) && Bounded(voters, prs, last) && last <= last'
    requires p.matched <= last' && p.next <= last' + 1 && p.pending <= last'
    ensures Bounded(voters, prs[j := p], last')
  {
  }

  lemma MatchedUpdate(id: Id, prs: Progs, j: Id, p: Progress.Prog)
    requires j in prs
    ensures p.matched == prs[j].matched ==> Matched(id, prs[j := p]) == Matched(id, prs)
    ensures j == id || p.matched > 0 ==> Matched(id, prs[j := p]) == Matched(id, prs)[j := p.matched]
  {
    var m, m' := Matched(id, prs), Matched(id, prs[j := p]);
    if p.matched == prs[j].matched {
      assert m' == m;
    }
    if j == id || p.matched > 0 {
      assert m' == m[j := p.matched];
    }
  }

  lemma KnownMatched(id: Id, prs: Progs, j: Id)
    requires j in prs
    ensures Quorum.Known(Matched(id, prs), j) == prs[j].matched
  {
  }

  /** The majority index lies within the leader's log. */
  lemma MajorityBounded(voters: set<Id>, id: Id, prs: Progs, last: nat)
    requires voters != {} && (forall j | j in voters :: j in prs) && Bounded(voters, prs, last)
    ensures Quorum.MajorityIndex(voters, Matched(id, prs)) <= last
  {
    var k := Quorum.MajorityIndex(voters, Matched(id, prs));
    var backers := Quorum.Backers(voters, Matched(id, prs), k);
    assert Quorum.Backed(voters, Matched(id, prs), k);
    assert |backers| >= 1;
    var j :| j in backers;
    KnownMatched(id, prs, j);
  }

  /** What sending one message m to a follower does to its progress. */
  ghost predicate Sends(p: Progress.Prog, m: Message, p': Progress.Prog) {
    match m
    case App(_, _, _, index, _, entries, _) =>
      && !p.IsPaused() && p.next == index + 1
      && p' == if entries == [] then p else p.Sent(index + |entries|)
    case Snap(_, _, _, index, _, _) => !p.IsPaused() && p' == p.BecomeSnapshot(index)
    case _ => false
  }

  lemma AppendAllowed(voters: set<Id>, n: Node, m: Message, p: Progress.Prog)
    requires m.App? && m.from == n.id && m.to in voters && m.to != n.id && m.term == n.term && m.commit == n.commit
    requires !p.IsPaused() && p.next >= 1 && m.index == p.next - 1 && m.index + |m.entries| <= |n.log|
    requires m.logTerm == TermAt(n.log, m.index) && m.entries == n.log[m.index..m.index + |m.entries|]
    ensures LeaderMay(voters, n, m)
    ensures Sends(p, m, if m.entries == [] then p else p.Sent(m.index + |m.entries|))
  {
  }

  /** A follower that is not sent to when it is its turn. */
  predicate MustWait(p: Progress.Prog, base: nat) {
    p.IsPaused() || (p.next <= base && !p.active)
  }

  /** The messages among ms that go to j. */
  function SentTo(ms: seq<Message>, j: Id): seq<Message> {
    if ms == [] then []
    else
      var m := ms[|ms| - 1];
      SentTo(ms[..|ms| - 1], j) + if !m.Local() && m.to == j then [m] else []
  }

  lemma {:induction false} SentToConcat(a: seq<Message>, b: seq<Message>, j: Id)
    ensures SentTo(a + b, j) == SentTo(a, j) + SentTo(b, j)
    decreases |b|
  {
    if b == [] {
      assert a + b == a;
    } else {
      assert (a + b)[..|a + b| - 1] == a + b[..|b| - 1];
      SentToConcat(a, b[..|b| - 1], j);
    }
  }

  lemma {:induction false} AllTo(ms: seq<Message>, i: Id, j: Id)
    requires forall m | m in ms :: !m.Local() && m.to == i
    ensures SentTo(ms, j) == if i == j then ms else []
    decreases |ms|
  {
    if ms != [] {
      var rest, m := ms[..|ms| - 1], ms[|ms| - 1];
      assert m in ms;
      assert SentTo(ms, j) == SentTo(rest, j) + if i == j then [m] else [];
      hide SentTo;
      forall x | x in rest ensures !x.Local() && x.to == i {
        assert x in ms;
      }
      AllTo(rest, i, j);
    }
  }

  /** A follower was sent one message, which its progress records, unless it must wait. */
  ghost predicate Tried(p: Progress.Prog, p': Progress.Prog, sent: seq<Message>, base: nat) {
    if MustWait(p, base) then sent == [] && p' == p
    else |sent| == 1 && Sends(p, sent[0], p')
  }

  /** All of js were sent to in their turn. */
  ghost predicate AllTried(js: set<Id>, before: Progs, after: Progs, sent: seq<Message>, base: nat) {
    forall j | j in js :: j in before && j in after && Tried(before[j], after[j], SentTo(sent, j), base)
  }

  /** In the middle of a broadcast: todo and id have not been sent to. */
  ghost predicate Casting(voters: set<Id>, id: Id, n: Node, before: Progs, now: Progs, todo: set<Id>,
                          sent: seq<Message>, base: nat) {
    && (forall j :: j in before <==> j in voters) && (forall j :: j in now <==> j in voters)
    && id in voters && todo <= voters
    && (forall m | m in sent :: LeaderMay(voters, n, m))
    && (forall j | j in voters && j !in todo && j != id :: Tried(before[j], now[j], SentTo(sent, j), base))
    && (forall j | j in voters && (j in todo || j == id) :: now[j] == before[j] && SentTo(sent, j) == [])
  }

  lemma CastStart(voters: set<Id>, id: Id, n: Node, before: Progs, base: nat)
    requires (forall j :: j in before <==> j in voters) && id in voters
    ensures Casting(voters, id, n, before, before, voters, [], base)
  {
  }

  lemma CastSkip(voters: set<Id>, id: Id, n: Node, before: Progs, now: Progs, todo: set<Id>, sent: seq<Message>, base: nat)
    requires Casting(voters, id, n, before, now, todo, sent, base)
    ensures Casting(voters, id, n, before, now, todo - {id}, sent, base)
  {
  }

  lemma CastNext(voters: set<Id>, id: Id, n: Node, before: Progs, now: Progs, now': Progs, todo: set<Id>, j: Id,
                 a: seq<Message>, b: seq<Message>, base: nat)
    requires Casting(voters, id, n, before, now, todo, a, base) && j in todo && j != id
    requires j in now' && now' == now[j := now'[j]] && Tried(now[j], now'[j], b, base)
    requires LeaderSends(voters, n, set m | m in b)
    requires forall k :: SentTo(b, k) == if k == j then b else []
    ensures Casting(voters, id, n, before, now', todo - {j}, a + b, base)
  {
    hide Tried, SentTo, LeaderMay;
    forall m | m in a + b ensures LeaderMay(voters, n, m) {
      if m !in a {
        assert m in set x | x in b;
      }
    }
    forall k ensures SentTo(a + b, k) == SentTo(a, k) + if k == j then b else [] {
      SentToConcat(a, b, k);
    }
    assert [] + b == b && SentTo(a + b, j) == b;
    forall k | k in voters && k != j ensures SentTo(a + b, k) == SentTo(a, k) && now'[k] == now[k] {
      assert SentTo(a, k) + [] == SentTo(a, k);
    }
  }

  lemma CastEnd(voters: set<Id>, id: Id, n: Node, before: Progs, now: Progs, sent: seq<Message>, base: nat)
    requires Casting(voters, id, n, before, now, {}, sent, base)
    ensures AllTried(voters - {id}, before, now, sent, base)
    ensures id in now && id in before && now[id] == before[id] && SentTo(sent, id) == []
    ensures LeaderSends(voters, n, set m | m in sent)
  {
    hide Tried, SentTo, LeaderMay;
    forall m | m in (set x | x in sent) ensures LeaderMay(voters, n, m) {
      assert m in sent;
    }
  }

  /** Appends that carry consecutive slices, from index from up to but not including till. */
  ghost predicate Consecutive(ms: seq<Message>, from: nat, till: nat) {
    if ms == [] then from == till
    else
      var m := ms[|ms| - 1];
      m.App? && m.entries != [] && m.index + 1 + |m.entries| == till && Consecutive(ms[..|ms| - 1], from, m.index + 1)
  }

  function Carried(ms: seq<Message>): seq<Entry> {
    if ms == [] then []
    else Carried(ms[..|ms| - 1]) + (if ms[|ms| - 1].App? then ms[|ms| - 1].entries else [])
  }

  ghost predicate CutFrom(log: seq<Entry>, m: Message) {
    m.App? ==> m.index + |m.entries| <= |log| && m.entries == log[m.index..m.index + |m.entries|]
  }

  /** Together consecutive appends carry exactly the slice of the log, no entry twice or left out. */
  lemma {:induction false} CarriedIsSlice(log: seq<Entry>, ms: seq<Message>, from: nat, till: nat)
    requires Consecutive(ms, from, till) && 1 <= from
    requires forall m | m in ms :: CutFrom(log, m)
    ensures from <= till
    ensures ms != [] ==> till <= |log| + 1
    ensures till <= |log| + 1 ==> Carried(ms) == log[from - 1..till - 1]
    decreases |ms|
  {
    hide *;
    LastOfConsecutive(log, ms, from, till);
    if ms != [] {
      var rest, m := ms[..|ms| - 1], ms[|ms| - 1];
      CarriedIsSlice(log, rest, from, m.index + 1);
      JoinSlices(log, from - 1, m.index, till - 1);
    }
  }

  lemma LastOfConsecutive(log: seq<Entry>, ms: seq<Message>, from: nat, till: nat)
    requires Consecutive(ms, from, till)
    requires forall m | m in ms :: CutFrom(log, m)
    ensures ms == [] ==> from == till && Carried(ms) == []
    ensures ms != [] ==>
      && var rest, m := ms[..|ms| - 1], ms[|ms| - 1];
         m.App? && m.index + |m.entries| == till - 1 && m.index + |m.entries| <= |log|
         && Consecutive(rest, from, m.index + 1) && (forall x | x in rest :: CutFrom(log, x))
         && Carried(ms) == Carried(rest) + log[m.index..till - 1]
  {
    if ms != [] {
      var m := ms[|ms| - 1];
      assert m in ms && CutFrom(log, m);
      forall x | x in ms[..|ms| - 1] ensures CutFrom(log, x) {
        assert x in ms;
      }
    }
  }

  lemma JoinSlices(log: seq<Entry>, a: nat, b: nat, c: nat)
    requires a <= b <= c <= |log|
    ensures log[a..b] + log[b..c] == log[a..c]
  {
  }

  lemma MayIsCut(voters: set<Id>, n: Node, m: Message)
    requires LeaderMay(voters, n, m)
    ensures CutFrom(n.log, m)
  {
  }

  lemma DrainFacts(voters: set<Id>, prs: Progs, size: nat, last: nat, j: Id)
    requires ProgsOk(voters, prs, size) && Bounded(voters, prs, last) && j in voters
    ensures j in prs && 1 <= prs[j].next <= last + 1 && |prs[j].items| <= prs[j].size == size
  {
  }

  lemma TiersOfSteady(log: RaftLog, full: seq<Entry>)
    requires LogSteady(log, full)
    ensures log.TiersOk()
  {
  }

  lemma AfterSend(voters: set<Id>, prs: Progs, size: nat, last: nat, j: Id, k: nat)
    requires ProgsOk(voters, prs, size) && Bounded(voters, prs, last) && j in voters
    requires !prs[j].IsPaused()
    requires prs[j].next - 1 + k <= last
    ensures prs[j].next >= 1 && !prs[j].mode.Snapshot?
    ensures var p := if k == 0 then prs[j] else prs[j].Sent(prs[j].next - 1 + k);
      p.Ok() && p.size == size && p.matched == prs[j].matched && p.next <= last + 1 && p.pending <= last
  {
    if k > 0 {
      Progress.SentKeeps(prs[j], prs[j].next - 1 + k);
    }
  }

  lemma SinceGrows(was: seq<Message>, now: seq<Message>, k: nat)
    requires was <= now && k <= |was|
    ensures Since(now, k) == Since(was, k) + Since(now, |was|)
  {
    assert now[k..] == was[k..] + now[|was|..];
  }

  /** What the drain loop has sent so far, and where that took the progress from p0. */
  ghost predicate Drained(voters: set<Id>, n: Node, p0: Progress.Prog, p: Progress.Prog, ms: seq<Message>) {
    && p.mode == p0.mode && p.size == p0.size
    && (p0.IsPaused() ==> p == p0)
    && (forall m | m in ms :: LeaderMay(voters, n, m))
    && (p0.mode.Replicate? ==> Consecutive(ms, p0.next, p.next) && |ms| == |p.items| - |p0.items|)
    && (!p0.mode.Replicate? ==> p.next == p0.next && |ms| <= if !p0.IsPaused() && p.IsPaused() then 1 else 0)
  }

  lemma DrainStart(voters: set<Id>, n: Node, p: Progress.Prog)
    ensures Drained(voters, n, p, p, [])
  {
  }

  /** One round of the drain loop. */
  lemma DrainMore(voters: set<Id>, n: Node, p0: Progress.Prog, p: Progress.Prog, p': Progress.Prog, ms: seq<Message>, m: Message)
    requires Drained(voters, n, p0, p, ms) && LeaderMay(voters, n, m)
    requires m.App? && m.entries != [] && Sends(p, m, p')
    ensures Drained(voters, n, p0, p', ms + [m])
    ensures p'.next > p.next || (p'.next == p.next && !p.IsPaused() && p'.IsPaused())
  {
    hide LeaderMay;
    assert (ms + [m])[..|ms|] == ms;
  }

  lemma DrainEnd(voters: set<Id>, n: Node, p0: Progress.Prog, p: Progress.Prog, ms: seq<Message>)
    requires Drained(voters, n, p0, p, ms)
    ensures p.mode == p0.mode && LeaderSends(voters, n, Since(ms, 0))
    ensures forall m | m in ms :: LeaderMay(voters, n, m)
    ensures p.mode.Replicate? ==> |ms| == |p.items| - |p0.items| && Consecutive(ms, p0.next, p.next)
    ensures !p.mode.Replicate? ==> p.next == p0.next && |ms| <= if !p0.IsPaused() && p.IsPaused() then 1 else 0
  {
    assert ms[0..] == ms;
  }

  /** A snapshot that stands for a committed prefix, and reaches where the kept log begins. */
  ghost predicate SnapshotOk(s: Snapshot, full: seq<Entry>, base: nat, committed: nat) {
    && base <= s.index <= committed && s.index <= |full|
    && s.data == full[..s.index]
    && s.term == TermAt(full, s.index)
  }

  ghost predicate LogOk(log: RaftLog, full: seq<Entry>)
    reads log, log.storage, log.unstable
  {
    log.Valid() && IsWindow(log.Abs(), full)
  }

  /** No snapshot waits to be installed, and nothing unapplied has been compacted. */
  ghost predicate LogSteady(log: RaftLog, full: seq<Entry>)
    reads log, log.storage, log.unstable
  {
    && LogOk(log, full)
    && log.unstable.snapshot == None
    && log.Abs().base <= log.applied
    && SnapshotOk(log.storage.snapshot, full, log.Abs().base, log.committed)
  }

  /** A leader's own entries go onto the end of both views of the log. */
  lemma OwnAppended(w: Log, full: seq<Entry>, s: Snapshot, committed: nat, ents: seq<Entry>)
    requires IsWindow(w, full) && SnapshotOk(s, full, w.base, committed) && committed <= |full|
    requires Numbered(ents, |full| + 1)
    ensures w.Valid() && w.Last() == |full|
    ensures ents != [] ==> ents[0].index == |full| + 1
    ensures IsWindow(w.Append(ents), full + ents) && w.Append(ents).Valid() && w.Append(ents).base == w.base
    ensures w.Append(ents).Last() == |full| + |ents|
    ensures SnapshotOk(s, full + ents, w.base, committed)
  {
    WindowFacts(w, full);
    if ents == [] {
      assert full + ents == full;
    } else {
      assert ents[0].index == |full| + 1;
      hide IsWindow, SnapshotOk, Numbered, Log.TermAt, TermAt;
      assert (full + ents)[..committed] == full[..committed];
      SnapshotKept(s, full, full + ents, w.base, committed);
      WindowAppend(w, full, ents);
      assert full[..|full|] + ents == full + ents;
      WindowFacts(w.Append(ents), full + ents);
    }
  }

  method AppendOwn(log: RaftLog, ghost full: seq<Entry>, ents: seq<Entry>) returns (last: nat)
    requires LogSteady(log, full) && Numbered(ents, |full| + 1)
    modifies log.unstable
    ensures LogSteady(log, full + ents) && last == |full| + |ents|
  {
    hide IsWindow, SnapshotOk, Numbered, Joined, Meet, Log.Append, Log.TermAt;
    WindowFacts(log.Abs(), full);
    OwnAppended(log.Abs(), full, log.storage.snapshot, log.committed, ents);
    last := log.Append(ents);
  }

  /** maybe_commit of the log, seen on the whole log. */
  method CommitIfCurrent(log: RaftLog, ghost full: seq<Entry>, k: nat, term: Term) returns (changed: bool)
    requires LogSteady(log, full) && k <= |full|
    modifies log`committed
    ensures LogSteady(log, full)
    ensures changed == (k > old(log.committed) && TermAt(full, k) == term)
    ensures log.committed == if changed then k else old(log.committed)
  {
    WindowFacts(log.Abs(), full);
    hide IsWindow, Numbered, Joined, Meet;
    changed := log.MaybeCommit(k, term);
  }

  /** commit_to, seen on the whole log. */
  method CommitThrough(log: RaftLog, ghost full: seq<Entry>, k: nat)
    requires LogSteady(log, full) && (k <= log.committed || k <= |full|)
    modifies log`committed
    ensures LogSteady(log, full) && log.committed == Max(old(log.committed), k)
  {
    WindowFacts(log.Abs(), full);
    hide IsWindow, Numbered, Joined, Meet;
    log.CommitTo(k);
  }

  /** Whether an accepted append is free of conflicts with the committed prefix and of gaps. */
  ghost predicate CanMerge(full: seq<Entry>, committed: nat, index: nat, logTerm: Term, commit: nat, ents: seq<Entry>) {
    TermAt(full, index) == logTerm ==>
      && var ci := FindConflict(full, ents);
         && (ci == 0 || committed < ci <= |full| + 1)
         && Min(commit, index + |ents|) <= Max(committed, |Merge(full, index, ents)|)
  }

  lemma MergeFacts(st: LogState, full: seq<Entry>, s: Snapshot, index: nat, logTerm: Term, commit: nat, ents: seq<Entry>)
    requires st.Valid() && IsWindow(st.log, full) && SnapshotOk(s, full, st.log.base, st.committed)
    requires Numbered(ents, index + 1) && index >= st.committed
    requires CanMerge(full, st.committed, index, logTerm, commit, ents)
    ensures st.Matches(index, logTerm) == (TermAt(full, index) == logTerm)
    ensures st.CanMaybeAppend(index, logTerm, commit, ents)
    ensures TermAt(full, index) == logTerm ==>
      && var full' := Merge(full, index, ents);
         && IsWindow(st.Merged(index, ents), full')
         && st.Merged(index, ents).base == st.log.base
         && st.Merged(index, ents).Valid() && st.Merged(index, ents).Last() == |full'|
         && SnapshotOk(s, full', st.log.base, st.committed) && st.committed <= |full'|
         && Min(commit, index + |ents|) <= |full'|
  {
    WindowFacts(st.log, full);
    if TermAt(full, index) == logTerm {
      WindowConflict(st.log, full, ents, index + 1);
      ConflictIsFirst(st.log, ents, index + 1);
      MergeResult(st, full, s, index, ents);
    }
  }

  lemma MergeResult(st: LogState, full: seq<Entry>, s: Snapshot, index: nat, ents: seq<Entry>)
    requires st.Valid() && IsWindow(st.log, full) && SnapshotOk(s, full, st.log.base, st.committed)
    requires Numbered(ents, index + 1) && index >= st.committed && st.log.Last() == |full|
    requires var ci := st.log.FindConflict(ents);
      ci == 0 || (index < ci <= index + |ents| && st.committed < ci <= |full| + 1)
    requires st.log.FindConflict(ents) == FindConflict(full, ents)
    ensures var full' := Merge(full, index, ents);
      && IsWindow(st.Merged(index, ents), full')
      && st.Merged(index, ents).base == st.log.base
      && st.Merged(index, ents).Valid() && st.Merged(index, ents).Last() == |full'|
      && SnapshotOk(s, full', st.log.base, st.committed) && st.committed <= |full'|
  {
    hide Log.FindConflict, FindConflict, IsWindow, SnapshotOk, Numbered, Log.TermAt;
    WindowMerge(st, full, index, ents);
    WindowFacts(st.Merged(index, ents), Merge(full, index, ents));
    var ci := st.log.FindConflict(ents);
    if ci != 0 {
      var full' := Merge(full, index, ents);
      assert full'[..st.committed] == full[..st.committed];
    }
    SnapshotKept(s, full, Merge(full, index, ents), st.log.base, st.committed);
  }

  /** maybe_append, seen on the whole log. */
  method MergeInto(log: RaftLog, ghost full: seq<Entry>, index: nat, logTerm: Term, commit: nat, ents: seq<Entry>)
    returns (lastNew: nat, ok: bool)
    requires LogSteady(log, full) && Numbered(ents, index + 1) && index >= log.committed
    requires CanMerge(full, log.committed, index, logTerm, commit, ents)
    modifies log`committed, log.unstable
    ensures ok == (TermAt(full, index) == logTerm)
    ensures lastNew == if ok then index + |ents| else 0
    ensures LogSteady(log, if ok then Merge(full, index, ents) else full)
    ensures log.committed == if ok then Max(old(log.committed), Min(commit, index + |ents|)) else old(log.committed)
  {
    hide Log.FindConflict, FindConflict, Merge, LogState.Merged, IsWindow, SnapshotOk, Numbered, Joined, Meet, CanMerge,
      LogState.CanMaybeAppend, LogState.Matches, TermAt;
    ghost var st, s := log.State(), log.storage.snapshot;
    MergeFacts(st, full, s, index, logTerm, commit, ents);
    lastNew, ok := log.MaybeAppend(index, logTerm, commit, ents);
    if ok {
      CommitGrows(s, Merge(full, index, ents), st.log.base, st.committed, log.committed);
    }
  }

  lemma CommitGrows(s: Snapshot, full: seq<Entry>, base: nat, committed: nat, committed': nat)
    requires SnapshotOk(s, full, base, committed) && committed <= committed'
    ensures SnapshotOk(s, full, base, committed')
  {
  }

  /** restore, seen on the whole log: it is now what the snapshot stands for. */
  method InstallSnapshot(log: RaftLog, ghost full: seq<Entry>, s: Snapshot)
    requires LogSteady(log, full) && s.index > log.committed
    requires |s.data| == s.index && Numbered(s.data, 1) && s.term == TermAt(s.data, s.index)
    modifies log`committed, log.unstable
    ensures LogOk(log, s.data) && log.committed == s.index && log.unstable.snapshot == Some(s)
  {
    hide IsWindow, SnapshotOk, Numbered, Joined, Meet, TermAt;
    WindowRestored(s);
    WindowFacts(Log.Restored(s), s.data);
    ghost var st := log.State();
    assert st.applied <= log.committed;
    log.Restore(s);
    assert log.State() == st.Restore(s);
    assert log.Abs() == Log.Restored(s);
    assert log.State().Valid();
  }

  lemma SnapshotKept(s: Snapshot, full: seq<Entry>, full': seq<Entry>, base: nat, committed: nat)
    requires SnapshotOk(s, full, base, committed) && committed <= |full|
    requires committed <= |full'| && full'[..committed] == full[..committed]
    ensures SnapshotOk(s, full', base, committed)
  {
    assert full'[..s.index] == full'[..committed][..s.index];
    assert full[..s.index] == full[..committed][..s.index];
    if s.index > 0 {
      assert full'[s.index - 1] == full'[..committed][s.index - 1];
      assert full[s.index - 1] == full[..committed][s.index - 1];
    }
  }

  lemma OwnFresh(voters: set<Id>, id: Id, last: nat, size: nat)
    requires id in voters && size >= 1
    ensures var prs := FreshProgs(voters, id, last, size);
      && id in prs
      && var p := prs[id].BecomeReplicate();
         && ProgsOk(voters, prs[id := p], size) && Bounded(voters, prs[id := p], last) && p.items == []
         && Matched(id, prs[id := p]) == Matched(id, prs)
  {
    var prs := FreshProgs(voters, id, last, size);
    var p := prs[id].BecomeReplicate();
    FreshOk(voters, id, last, size);
    ProgsUpdate(voters, prs, size, id, p);
    BoundedUpdate(voters, prs, last, last, id, p);
    MatchedUpdate(id, prs, id, p);
  }

  /** The leader's own progress moves with its log. */
  lemma OwnProgress(voters: set<Id>, prs: Progs, size: nat, last: nat, last': nat, id: Id)
    requires ProgsOk(voters, prs, size) && Bounded(voters, prs, last) && last <= last'
    requires id in voters && prs[id].items == []
    ensures var p := prs[id].MaybeUpdate(last');
      ProgsOk(voters, prs[id := p], size) && Bounded(voters, prs[id := p], last') && p.items == []
  {
    ProgsUpdate(voters, prs, size, id, prs[id].MaybeUpdate(last'));
    BoundedUpdate(voters, prs, last, last', id, prs[id].MaybeUpdate(last'));
  }

  /** A new leader's progress: it replicates to itself and probes everyone else. */
  function OwnReplicates(prs: Progs, id: Id, last: nat): Progs {
    if id in prs then prs[id := prs[id].BecomeReplicate().MaybeUpdate(last)] else prs
  }

  lemma OthersTried(voters: set<Id>, id: Id, before: Progs, mid: Progs, after: Progs, sent: seq<Message>, base: nat)
    requires AllTried(voters - {id}, mid, after, sent, base)
    requires id in before && id in mid && mid == before[id := mid[id]]
    ensures AllTried(voters - {id}, before, after, sent, base)
  {
    hide Tried, SentTo;
  }

  /** The leader's books, whatever index its own entries start behind. */
  ghost predicate InOrder(full: seq<Entry>, applied: nat, uncommitted: nat, pending: nat) {
    exists start: nat :: Quota.Books(full, start, applied, uncommitted, pending).Ok()
  }

  lemma NewBooks(was: seq<Entry>, applied: nat, term: Term)
    requires applied <= |was|
    ensures InOrder(was + Stamp(term, |was|, [NOOP]), applied, 0, |was|)
  {
    Quota.ElectedOk(was, applied, term);
    assert Quota.Elected(was, applied, term) == Quota.Books(was + Stamp(term, |was|, [NOOP]), |was|, applied, 0, |was|);
  }

  /** A proposal keeps the books in order, whether it is taken or dropped. */
  lemma ProposalKeepsBooks(voters: set<Id>, n: Node, f: Flow, entries: seq<Entry>, n': Node, f': Flow, sent: seq<Message>, base: nat)
    requires n.id in voters && ProposalFlow(voters, n, f, entries, n', f', sent, base)
    requires InOrder(n.log, f.applied, f.uncommitted, f.pending)
    ensures InOrder(n'.log, f'.applied, f'.uncommitted, f'.pending)
  {
    hide AllTried, SentTo, MaybeCommit, Quota.Screen, Quota.Payload, Quota.Admits;
    if f.transferee == NONE {
      var start: nat :| Quota.Books(n.log, start, f.applied, f.uncommitted, f.pending).Ok();
      var b := Quota.Books(n.log, start, f.applied, f.uncommitted, f.pending);
      hide Quota.Books.Ok;
      Quota.ProposeKeeps(b, entries, n.term, f.quota);
      AppendedLog(voters, n, Quota.Screen(entries, |n.log|, f.applied, f.pending).0);
      var b' := Quota.After(b, Quota.Propose(entries, n.term, f.quota));
      assert b' == Quota.Books(n'.log, start, f'.applied, f'.uncommitted, f'.pending);
    }
  }

  lemma AppendedLog(voters: set<Id>, n: Node, ents: seq<Entry>)
    requires n.id in voters
    ensures NodeSpec.AppendEntry(voters, n, ents).log == n.log + Stamp(n.term, |n.log|, ents)
  {
  }

  lemma AppliedWithin(log: RaftLog, full: seq<Entry>)
    requires LogSteady(log, full)
    ensures log.applied <= log.committed <= |full|
  {
    WindowFacts(log.Abs(), full);
  }

  lemma ActiveOk(voters: set<Id>, prs: Progs, size: nat, last: nat, j: Id)
    requires ProgsOk(voters, prs, size) && Bounded(voters, prs, last) && j in voters
    ensures var p := prs[j].(active := true);
      p.Ok() && p.size == size && p.matched <= last && p.next <= last + 1 && p.pending <= last
  {
  }

  lemma AckInBounds(p: Progress.Prog, last: nat, n: nat)
    requires p.Ok() && p.matched <= last && p.next <= last + 1 && p.pending <= last && n <= last
    ensures var p' := p.Acked(n);
      && p'.Ok() && p'.size == p.size && p'.matched == Max(p.matched, n)
      && p'.next <= last + 1 && p'.pending <= last
  {
    Progress.AckedKeeps(p, n);
  }

  lemma HeartbeatInBounds(voters: set<Id>, prs: Progs, size: nat, last: nat, j: Id)
    requires ProgsOk(voters, prs, size) && Bounded(voters, prs, last) && j in voters
    ensures var p := prs[j].HeartbeatAnswered();
      && p.Ok() && p.size == size && p.matched == prs[j].matched && p.next <= last + 1 && p.pending <= last
      && (prs[j].items == [] ==> p.items == [])
  {
    Progress.HeartbeatKeeps(prs[j]);
  }

  lemma RejectInBounds(voters: set<Id>, prs: Progs, size: nat, last: nat, j: Id, rejected: nat, hint: nat)
    requires ProgsOk(voters, prs, size) && Bounded(voters, prs, last) && j in voters
    ensures forall p | p == prs[j].(active := true) || p == prs[j].(active := true).Rejected(rejected, hint) ::
      p.Ok() && p.size == size && p.matched == prs[j].matched && p.next <= last + 1 && p.pending <= last
  {
  }

  lemma TimeoutAllowed(voters: set<Id>, n: Node, j: Id)
    requires j in voters && j != n.id
    ensures LeaderMay(voters, n, TimeoutNow(n.id, j, n.term))
  {
  }

  lemma VotersHaveProgs(voters: set<Id>, prs: Progs, size: nat)
    requires ProgsOk(voters, prs, size)
    ensures forall j :: j in prs <==> j in voters
  {
  }

  /** Whether handling m throws depends on the log and the commit index only. */
  lemma FatalIgnoresRole(n: Node, m: Message)
    requires m.App? || m.Heartbeat? || m.Snap?
    ensures LogFatal(n, m) == LogFatal(n.(lead := m.from), m)
    ensures LogFatal(n, m) == LogFatal(NodeSpec.BecomeFollower(n, m.term, m.from), m)
  {
  }

  /** Only a follower that need not wait is sent to. */
  lemma SendsMeans(p: Progress.Prog, m: Message, p': Progress.Prog, base: nat)
    requires Sends(p, m, p')
    ensures !p.IsPaused() && !m.Local() && (m.App? || m.Snap?)
  {
  }

  /**
   * What the drain loop did to j's progress: all that the window lets through was sent, each entry
   * once and in order. A probed follower gets at most one message, one that is being sent a snapshot
   * none; and it ends only paused, caught up, or where the log has been compacted.
   */
  ghost predicate Flushed(full: seq<Entry>, j: Id, p: Progress.Prog, p': Progress.Prog, sent: seq<Message>, base: nat) {
    && (forall m | m in sent :: !m.Local() && m.to == j)
    && p'.mode == p.mode
    && (p.mode.Replicate? ==>
         && |sent| == |p'.items| - |p.items| <= p.size - |p.items|
         && 1 <= p.next <= p'.next <= |full| + 1
         && Consecutive(sent, p.next, p'.next) && Carried(sent) == full[p.next - 1..p'.next - 1])
    && (!p.mode.Replicate? ==> p'.next == p.next && |sent| <= 1)
    && (p.mode.Snapshot? ==> sent == [])
    && (p'.IsPaused() || p'.next > |full| || p'.next <= base)
  }

  /** The part of a leader's state that its view leaves out, with its limits and what is applied. */
  datatype Flow = Flow(prs: Progs, transferee: Id, pending: nat, uncommitted: nat, quota: nat, applied: nat)

  /**
   * raft.cpp:642-656: a new commit index is told to everyone, else a follower that was paused is
   * told; then j gets what it can take.
   */
  ghost predicate Served(voters: set<Id>, n: Node, j: Id, changed: bool, paused: bool, before: Progs, mid: Progs, after: Progs,
                         first: seq<Message>, rest: seq<Message>, base: nat) {
    && j in before && j in mid && j in after
    && (if changed then
          && AllTried(voters - {n.id}, before, mid, first, base) && SentTo(first, n.id) == []
          && n.id in before && n.id in mid && mid[n.id] == before[n.id]
        else if paused then mid == before[j := mid[j]] && Tried(before[j], mid[j], first, base)
        else mid == before && first == [])
    && after == mid[j := after[j]] && Flushed(n.log, j, mid[j], after[j], rest, base)
  }

  /** raft.cpp:609-664: n is the leader afterwards, changed says whether it has just committed. */
  ghost predicate AckFlow(voters: set<Id>, n: Node, changed: bool, f: Flow, m: Message, f': Flow, sent: seq<Message>, base: nat)
    requires m.AppResp?
  {
    var j := m.from;
    if j !in f.prs then f' == f && sent == []
    else
      var pr := f.prs[j].(active := true);
      && f' == f.(prs := f'.prs)
      && if m.reject then
           && j in f'.prs && f'.prs == f.prs[j := f'.prs[j]]
           && if pr.Rejects(m.index) then Tried(pr.Rejected(m.index, m.hint), f'.prs[j], sent, base)
              else f'.prs[j] == pr && sent == []
         else if m.index <= pr.matched then f'.prs == f.prs[j := pr.Acked(m.index)] && sent == []
         else ServedInAll(voters, n, j, changed, pr.IsPaused(), f.prs[j := pr.Acked(m.index)], f'.prs, f.transferee, sent, base)
  }

  ghost predicate ServedInAll(voters: set<Id>, n: Node, j: Id, changed: bool, paused: bool, before: Progs, after: Progs,
                              transferee: Id, sent: seq<Message>, base: nat) {
    exists mid: Progs, first: seq<Message>, rest: seq<Message> ::
      && Served(voters, n, j, changed, paused, before, mid, after, first, rest, base)
      && sent == first + rest + Farewell(n, transferee, j, after[j].matched)
  }

  /** The leadership goes to the transferee once it has the whole log. */
  function Farewell(n: Node, transferee: Id, j: Id, matched: nat): seq<Message> {
    if j == transferee && matched == |n.log| then [TimeoutNow(n.id, j, n.term)] else []
  }

  /** raft.cpp:519-563. */
  ghost predicate ProposalFlow(voters: set<Id>, n: Node, f: Flow, entries: seq<Entry>, n': Node, f': Flow, sent: seq<Message>,
                               base: nat)
    requires n.id in voters
  {
    var (ents, pending) := Quota.Screen(entries, |n.log|, f.applied, f.pending);
    var own := Stamp(n.term, |n.log|, ents);
    if f.transferee != NONE then n' == n && f' == f && sent == []
    else if !Quota.Admits(f.uncommitted, f.quota, own) then n' == n && f' == f.(pending := pending) && sent == []
    else
      && n' == NodeSpec.AppendEntry(voters, n, ents)
      && f' == f.(pending := pending, uncommitted := f.uncommitted + Quota.Payload(own), prs := f'.prs)
      && AllTried(voters - {n.id}, f.prs, f'.prs, sent, base) && SentTo(sent, n.id) == []
      && n.id in f.prs && n.id in f'.prs && f'.prs[n.id] == f.prs[n.id].MaybeUpdate(|n'.log|)
  }

  /** raft.cpp:739-782. */
  ghost predicate TransferFlow(n: Node, f: Flow, j: Id, f': Flow, sent: seq<Message>, base: nat) {
    if j !in f.prs || (f.transferee != NONE && f.transferee == j) then f' == f && sent == []
    else if j == n.id then f' == f.(transferee := NONE) && sent == []
    else
      && f' == f.(transferee := j, prs := f'.prs) && j in f'.prs && f'.prs == f.prs[j := f'.prs[j]]
      && if f.prs[j].matched == |n.log| then f'.prs[j] == f.prs[j] && sent == [TimeoutNow(n.id, j, n.term)]
         else Tried(f.prs[j], f'.prs[j], sent, base)
  }

  /**
   * raft.cpp:506-785, what a leader's step does beyond its view: to the progress of each follower,
   * to the transfer, to the books, and in which order it sends.
   */
  ghost predicate LeaderFlow(voters: set<Id>, n: Node, f: Flow, m: Message, n': Node, f': Flow, sent: seq<Message>, base: nat)
    requires n.id in voters
  {
    match m
    case AppResp(_, _, _, _, _, _) => AckFlow(voters, n', n'.commit != n.commit, f, m, f', sent, base)
    case HeartbeatResp(j, _, _) =>
      if j !in f.prs then f' == f && sent == []
      else
        var p := f.prs[j].HeartbeatAnswered();
        && f' == f.(prs := f'.prs) && j in f'.prs && f'.prs == f.prs[j := f'.prs[j]]
        && if p.matched < |n.log| then Tried(p, f'.prs[j], sent, base) else f'.prs[j] == p && sent == []
    case SnapStatus(j, failed) =>
      sent == [] && f' == if j !in f.prs then f else f.(prs := f.prs[j := f.prs[j].SnapshotReported(failed)])
    case Unreachable(j) =>
      sent == [] && f' == if j !in f.prs then f else f.(prs := f.prs[j := f.prs[j].Unreachable()])
    case TransferLeader(j) => TransferFlow(n, f, j, f', sent, base)
    case Prop(_, _, entries) => ProposalFlow(voters, n, f, entries, n', f', sent, base)
    case CheckQuorum =>
      sent == [] && if |Heard(n.id, f.prs, voters)| >= Quorum.Size(voters) then n' == n && f' == f
                    else n' == NodeSpec.BecomeFollower(n, n.term, NONE)
    case _ => f' == f
  }

  predicate HasConf(ents: seq<Entry>) {
    exists e :: e in ents && e.kind.ConfChange?
  }

  lemma LimitedIsPrefix(s: seq<Entry>, max: nat, r: seq<Entry>)
    requires IsLimited(s, max, r)
    ensures r <= s && (Total(s) <= max ==> r == s)
  {
    hide Total;
    if |r| < |s| {
      TotalGrows(s, |r| + 1, |s|);
      assert s[..|s|] == s;
    }
  }

  /** Those among s that have been heard from, the node itself included. */
  ghost function Heard(id: Id, prs: Progs, s: set<Id>): set<Id> {
    set j | j in s && (j == id || (j in prs && prs[j].active))
  }

  /** What a sender guarantees of a message: entries in a row, and a snapshot that is what it says. */
  ghost predicate WellSent(m: Message) {
    && (m.App? ==> Numbered(m.entries, m.index + 1))
    && (m.Snap? ==> |m.prefix| == m.index && Numbered(m.prefix, 1) && m.logTerm == TermAt(m.prefix, m.index))
    && (m.Prop? ==> m.entries != [])
    && (!m.Local() && !m.Prop? ==> m.term > 0)
  }

  class Raft {
    const cfg: Config
    const id: Id
    const log: RaftLog
    const maxMsgSize: nat
    const maxUncommitted: nat
    const maxInflight: nat
    var term: Term
    var vote: Id
    var role: Role
    var lead: Id
    var leadTransferee: Id
    var pendingConf: nat
    var uncommitted: nat
    var votes: map<Id, bool>
    var prs: Progs
    var msgs: seq<Message>
    /** The log from its first entry on, whatever has been compacted. */
    ghost var full: seq<Entry>

    ghost predicate Core()
      reads this
    {
      && cfg.Valid() && id in cfg.voters && !cfg.guarded && maxInflight >= 1
      && ProgsOk(cfg.voters, prs, maxInflight)
      && prs[id].items == []
      && (role.Leader? ==> Bounded(cfg.voters, prs, |full|))
    }

    ghost predicate Valid()
      reads this, log, log.storage, log.unstable
    {
      Core() && LogOk(log, full)
    }

    /** A leader never counts more than what waits, and has at most one change of its own pending. */
    ghost predicate BooksOk()
      reads this, log
    {
      role.Leader? ==> InOrder(full, log.applied, uncommitted, pendingConf)
    }

    /** Between two Ready cycles. */
    ghost predicate Steady()
      reads this, log, log.storage, log.unstable
    {
      Core() && LogSteady(log, full)
    }

    /** After a step either the node is as steady as before, or the snapshot in m waits to be saved. */
    ghost predicate Settles(m: Message, committed: nat, before: seq<Entry>)
      reads this, log, log.storage, log.unstable
    {
      || (LogSteady(log, full) && (m.Snap? ==> full == before))
      || (&& m.Snap? && m.index > committed && full == m.prefix && log.committed == m.index
          && TermAt(before, m.index) != m.logTerm
          && log.unstable.snapshot == Some(Snapshot(m.index, m.logTerm, m.prefix)))
    }

    ghost function Books(): Flow
      reads this, log
    {
      Flow(prs, leadTransferee, pendingConf, uncommitted, maxUncommitted, log.applied)
    }

    ghost function View(): Node
      reads this, log
    {
      Node(id, term, vote, role, lead, Granted(votes), Refused(votes), full, log.committed, Matched(id, prs))
    }

    /**
     * raft.cpp:23-119, 1166-1177: a node comes back from what is on disk. A saved commit index
     * outside the log throws; an empty hard state is not loaded.
     */
    constructor (cfg: Config, id: Id, storage: MemoryStorage, maxMsgSize: nat, maxUncommitted: nat,
                 maxInflight: nat, maxNextSize: nat, ghost full: seq<Entry>)
      requires cfg.Valid() && id in cfg.voters && !cfg.guarded && maxInflight >= 1
      requires storage.Valid() && IsWindow(storage.Abs(), full)
      requires var hs, s := storage.hardState, storage.snapshot;
        && (hs != HardState(0, 0, 0) ==> storage.Abs().base <= hs.commit <= storage.Abs().Last())
        && SnapshotOk(s, full, storage.Abs().base, storage.Abs().base)
      ensures Steady() && fresh(log) && fresh(log.unstable) && log.storage == storage
      ensures this.id == id && this.cfg == cfg && msgs == []
      ensures log.unstable.entries == [] && log.floor == log.committed && log.applied == storage.Abs().base
      ensures var hs := storage.hardState;
        View() == Node(id, hs.term, hs.vote, Follower, NONE, {}, {}, full,
                       if hs == HardState(0, 0, 0) then storage.Abs().base else hs.commit, map[id := |full|])
    {
      this.cfg, this.id := cfg, id;
      this.maxMsgSize, this.maxUncommitted, this.maxInflight := maxMsgSize, maxUncommitted, maxInflight;
      this.full := full;
      term, vote, role, lead := 0, NONE, Follower, NONE;
      leadTransferee, pendingConf, uncommitted := NONE, 0, 0;
      votes, msgs := map[], [];
      prs := FreshProgs(cfg.voters, id, 0, maxInflight);
      log := new RaftLog(storage, maxNextSize);
      new;
      assert log.State().applied == storage.Abs().base;
      FreshOk(cfg.voters, id, 0, maxInflight);
      var hs := storage.hardState;
      if hs != HardState(0, 0, 0) {
        log.committed := hs.commit;
        log.floor := hs.commit;
        term := hs.term;
        vote := hs.vote;
      }
      assert log.Abs() == storage.Abs();
      BecomeFollower(term, NONE);
    }

    // -------------------------------------------------------------- role changes

    /** The assignments of reset; only id's own progress knows a match. */
    method Forget(t: Term, last: nat)
      modifies this`term, this`vote, this`lead, this`leadTransferee, this`votes, this`prs, this`pendingConf, this`uncommitted
      ensures term == t && vote == (if t != old(term) then NONE else old(vote))
      ensures lead == NONE && leadTransferee == NONE && votes == map[] && pendingConf == 0 && uncommitted == 0
      ensures prs == FreshProgs(cfg.voters, id, last, maxInflight)
    {
      if term != t {
        term := t;
        vote := NONE;
      }
      lead := NONE;
      leadTransferee := NONE;
      votes := map[];
      prs := FreshProgs(cfg.voters, id, last, maxInflight);
      pendingConf := 0;
      uncommitted := 0;
    }

    /** raft.cpp:1374-1404. */
    method Reset(t: Term)
      requires Steady()
      modifies this`term, this`vote, this`lead, this`leadTransferee, this`votes, this`prs, this`pendingConf, this`uncommitted
      ensures Steady() && View() == NodeSpec.Reset(old(View()), t)
      ensures leadTransferee == NONE && pendingConf == 0 && uncommitted == 0
      ensures prs == FreshProgs(cfg.voters, id, |full|, maxInflight)
    {
      hide LogOk, LogSteady, FreshProgs, Matched, ProgsOk, Bounded, Granted, Refused;
      NoVotes();
      FreshOk(cfg.voters, id, |full|, maxInflight);
      MatchedFresh(cfg.voters, id, |full|, maxInflight);
      var last := LastOf();
      Forget(t, last);
    }

    method LastOf() returns (last: nat)
      requires LogSteady(log, full)
      ensures last == |full|
    {
      WindowFacts(log.Abs(), full);
      last := log.LastIndex();
    }

    method BecomeFollower(t: Term, l: Id)
      requires Steady()
      modifies this
      ensures Steady() && View() == NodeSpec.BecomeFollower(old(View()), t, l) && role.Follower?
      ensures msgs == old(msgs) && full == old(full)
    {
      hide LogOk, LogSteady, ProgsOk, Matched;
      Reset(t);
      lead := l;
      role := Follower;
    }

    /** raft.cpp:137-147; a leader does not become a candidate. */
    method BecomeCandidate()
      requires Steady() && !role.Leader?
      modifies this
      ensures Steady() && View() == NodeSpec.BecomeCandidate(old(View()))
      ensures msgs == old(msgs)
    {
      hide LogOk, LogSteady, ProgsOk, Matched;
      Reset(term + 1);
      vote := id;
      role := Candidate;
    }

    method BecomePreCandidate()
      requires Steady() && !role.Leader?
      modifies this`votes, this`lead, this`role
      ensures Steady() && View() == NodeSpec.BecomePreCandidate(old(View()))
    {
      votes := map[];
      lead := NONE;
      role := PreCandidate;
    }

    /** raft.cpp:1361-1372. */
    method MaybeCommit() returns (changed: bool)
      requires Steady() && role.Leader?
      modifies log`committed
      ensures Steady() && View() == NodeSpec.MaybeCommit(cfg.voters, old(View()))
      ensures changed == (log.committed != old(log.committed))
    {
      hide LogOk, LogSteady, Matched, Granted, Refused;
      var mci := CommitIndex.MajorityMatch(cfg.voters, Matched(id, prs));
      MajorityBounded(cfg.voters, id, prs, |full|);
      hide Bounded, ProgsOk;
      changed := CommitIfCurrent(log, full, mci, term);
    }

    // -------------------------------------------------------------- the leader's books

    /** raft.cpp:1515-1528. */
    method IncreaseUncommitted(ents: seq<Entry>) returns (ok: bool)
      modifies this`uncommitted
      ensures ok == Quota.Admits(old(uncommitted), maxUncommitted, ents)
      ensures uncommitted == old(uncommitted) + if ok then Quota.Payload(ents) else 0
    {
      var size := PayloadOf(ents);
      if uncommitted > 0 && uncommitted + size > maxUncommitted {
        return false;
      }
      uncommitted := uncommitted + size;
      return true;
    }

    /** raft.cpp:1530-1549. */
    method ReduceUncommitted(ents: seq<Entry>)
      modifies this`uncommitted
      ensures uncommitted == Quota.Reduced(old(uncommitted), ents)
    {
      if uncommitted == 0 {
        return;
      }
      var size := PayloadOf(ents);
      if size > uncommitted {
        uncommitted := 0;
      } else {
        uncommitted := uncommitted - size;
      }
    }

    static method PayloadOf(ents: seq<Entry>) returns (size: nat)
      ensures size == Quota.Payload(ents)
    {
      size := 0;
      var i := 0;
      while i < |ents|
        invariant 0 <= i <= |ents|
        invariant size == Quota.Payload(ents[..i])
      {
        assert ents[..i + 1][..i] == ents[..i];
        size := size + |ents[i].data|;
        i := i + 1;
      }
      assert ents[..i] == ents;
    }

    // -------------------------------------------------------------- appending and leading

    /** raft.cpp:1410-1435. A proposal beyond the quota is dropped and changes nothing. */
    method AppendEntry(entries: seq<Entry>) returns (ok: bool)
      requires Steady() && role.Leader?
      modifies this`prs, this`uncommitted, this`full, log`committed, log.unstable
      ensures Steady()
      ensures ok == Quota.Admits(old(uncommitted), maxUncommitted, Stamp(term, |old(full)|, entries))
      ensures !ok ==> View() == old(View()) && uncommitted == old(uncommitted) && prs == old(prs)
      ensures ok ==>
        && View() == NodeSpec.AppendEntry(cfg.voters, old(View()), entries)
        && uncommitted == old(uncommitted) + Quota.Payload(Stamp(term, |old(full)|, entries))
        && id in prs && id in old(prs) && prs == old(prs)[id := old(prs)[id].MaybeUpdate(|full|)]
    {
      hide LogOk, LogSteady, Quota.Payload, Matched, Granted, Refused;
      var li := LastOf();
      var ents := Numbering(entries, li);
      ok := IncreaseUncommitted(ents);
      if ok {
        AppendAndCount(ents);
        var _ := MaybeCommit();
      }
    }

    method Numbering(entries: seq<Entry>, last: nat) returns (ents: seq<Entry>)
      ensures ents == Stamp(term, last, entries) && Numbered(ents, last + 1)
    {
      ents := [];
      var i := 0;
      while i < |entries|
        invariant 0 <= i <= |entries| && |ents| == i
        invariant forall k | 0 <= k < i :: ents[k] == Entry(entries[k].kind, term, last + 1 + k, entries[k].data)
      {
        ents := ents + [Entry(entries[i].kind, term, last + 1 + i, entries[i].data)];
        i := i + 1;
      }
    }

    /** The entries go onto the log, and the leader's own progress follows. */
    method AppendAndCount(ents: seq<Entry>)
      requires Steady() && role.Leader? && Numbered(ents, |full| + 1)
      modifies this`prs, this`full, log.unstable
      ensures Steady() && full == old(full) + ents
      ensures id in old(prs) && prs == old(prs)[id := old(prs)[id].MaybeUpdate(|full|)]
      ensures View() == old(View()).(log := full,
        matched := old(View()).matched[id := Max(Quorum.Known(old(View()).matched, id), |full|)])
    {
      hide LogOk, LogSteady, Numbered, Matched, Granted, Refused, Bounded;
      var last := AppendOwn(log, full, ents);
      var p := prs[id].MaybeUpdate(last);
      KnownMatched(id, prs, id);
      MatchedUpdate(id, prs, id, p);
      OwnProgress(cfg.voters, prs, maxInflight, |full|, last, id);
      prs := prs[id := p];
      full := full + ents;
    }

    /** raft.cpp:164-203; the empty entry does not count towards the quota. */
    method BecomeLeader()
      requires Steady() && (role.Candidate? || role.PreCandidate?)
      modifies this, log`committed, log.unstable
      ensures Steady() && role.Leader? && msgs == old(msgs)
      ensures View() == NodeSpec.BecomeLeader(cfg.voters, old(View()))
      ensures uncommitted == 0 && pendingConf == |old(full)| && leadTransferee == NONE
      ensures prs == OwnReplicates(FreshProgs(cfg.voters, id, |old(full)|, maxInflight), id, |full|)
      ensures BooksOk()
    {
      hide LogOk, LogSteady, NodeSpec.AppendEntry, Matched, Granted, Refused, ProgsOk, Bounded, InOrder;
      StartReign();
      AppliedWithin(log, full);
      AppendedLog(cfg.voters, View(), [NOOP]);
      NewBooks(full, log.applied, term);
      var ok := AppendEntry([NOOP]);
      ReduceUncommitted([NOOP]);
    }

    method StartReign()
      requires Steady() && (role.Candidate? || role.PreCandidate?)
      modifies this
      ensures Steady() && role.Leader? && msgs == old(msgs) && uncommitted == 0 && pendingConf == |full|
      ensures full == old(full) && leadTransferee == NONE
      ensures var blank := FreshProgs(cfg.voters, id, |full|, maxInflight);
        id in blank && prs == blank[id := blank[id].BecomeReplicate()]
      ensures View() == NodeSpec.Reset(old(View()), old(term)).(lead := id, role := Leader)
    {
      hide LogOk, LogSteady, Matched, Granted, Refused, FreshProgs, ProgsOk, Bounded;
      Reset(term);
      var last := LastOf();
      OwnFresh(cfg.voters, id, last, maxInflight);
      var p := prs[id].BecomeReplicate();
      TakeLead(last, p);
    }

    method TakeLead(last: nat, p: Progress.Prog)
      modifies this`lead, this`role, this`pendingConf, this`prs
      ensures lead == id && role == Leader && pendingConf == last && prs == old(prs)[id := p]
    {
      lead := id;
      role := Leader;
      pendingConf := last;
      prs := prs[id := p];
    }

    // -------------------------------------------------------------- elections

    /** raft.cpp:258-277: the first answer of a voter counts. */
    method Poll(from: Id, v: bool) returns (granted: nat)
      requires Steady()
      modifies this`votes
      ensures Steady() && View() == NodeSpec.Poll(old(View()), from, v)
      ensures granted == |View().granted|
    {
      hide LogOk, LogSteady, ProgsOk, Bounded, Matched;
      if from !in votes {
        PollSplits(votes, from, v);
        votes := votes[from := v];
      }
      granted := |Granted(votes)|;
    }

    /** raft.cpp:230-255. */
    method SendVoteRequests(pre: bool, force: bool)
      requires Steady()
      modifies this`msgs
      ensures Steady() && View() == old(View()) && old(msgs) <= msgs
      ensures Since(msgs, |old(msgs)|) == if pre then PreVoteRequests(cfg.voters, View()) else VoteRequests(cfg.voters, View(), force)
    {
      hide LogOk, LogSteady, ProgsOk, Bounded, Matched, Granted, Refused;
      var last, lastTerm := LastEntry();
      var out := Requests(last, lastTerm, pre, force);
      assert RequestsTo(cfg.voters, last, lastTerm, pre, force)
        == if pre then PreVoteRequests(cfg.voters, View()) else VoteRequests(cfg.voters, View(), force);
      ghost var sent := msgs;
      msgs := msgs + out;
      assert msgs[|sent|..] == out;
    }

    method LastEntry() returns (last: nat, lastTerm: Term)
      requires LogSteady(log, full)
      ensures last == |full| && lastTerm == NodeSpec.LastTerm(full)
    {
      WindowFacts(log.Abs(), full);
      last := log.LastIndex();
      lastTerm := log.LastTerm();
    }

    function Request(j: Id, last: nat, lastTerm: Term, pre: bool, force: bool): Message
      reads this
    {
      if pre then PreVote(id, j, term + 1, last, lastTerm) else Vote(id, j, term, last, lastTerm, force)
    }

    ghost function RequestsTo(to: set<Id>, last: nat, lastTerm: Term, pre: bool, force: bool): set<Message>
      reads this
    {
      set j | j in to && j != id :: Request(j, last, lastTerm, pre, force)
    }

    method Requests(last: nat, lastTerm: Term, pre: bool, force: bool) returns (out: seq<Message>)
      ensures (set m | m in out) == RequestsTo(cfg.voters, last, lastTerm, pre, force)
    {
      out := [];
      var todo := cfg.voters;
      while todo != {}
        invariant todo <= cfg.voters
        invariant (set m | m in out) == RequestsTo(cfg.voters - todo, last, lastTerm, pre, force)
        decreases |todo|
      {
        ghost var done, was := cfg.voters - todo, out;
        var j :| j in todo;
        todo := todo - {j};
        assert cfg.voters - todo == done + {j};
        if j != id {
          var m := Request(j, last, lastTerm, pre, force);
          out := out + [m];
          assert (set x | x in out) == (set x | x in was) + {m};
          assert RequestsTo(done + {j}, last, lastTerm, pre, force) == RequestsTo(done, last, lastTerm, pre, force) + {m};
        } else {
          assert RequestsTo(done + {j}, last, lastTerm, pre, force) == RequestsTo(done, last, lastTerm, pre, force);
        }
      }
      assert cfg.voters - todo == cfg.voters;
    }

    /** raft.cpp:205-256, a real election; force marks a leadership transfer. */
    method CampaignElection(force: bool)
      requires Steady() && !role.Leader?
      modifies this, log`committed, log.unstable
      ensures Steady() && old(msgs) <= msgs
      ensures (View(), Since(msgs, |old(msgs)|)) == NodeSpec.Campaign(cfg.voters, old(View()), force)
      ensures BooksOk()
    {
      hide LogOk, LogSteady, Matched, Granted, Refused, ProgsOk, Bounded, NodeSpec.AppendEntry;
      BecomeCandidate();
      var granted := Poll(id, true);
      if |cfg.voters| / 2 + 1 == granted {
        BecomeLeader();
        assert Since(msgs, |msgs|) == {};
      } else {
        SendVoteRequests(false, force);
      }
    }

    /** raft.cpp:205-256, asking first whether an election could be won. */
    method PreCampaign()
      requires Steady() && !role.Leader?
      modifies this, log`committed, log.unstable
      ensures Steady() && old(msgs) <= msgs
      ensures (View(), Since(msgs, |old(msgs)|)) == NodeSpec.PreCampaign(cfg.voters, old(View()))
      ensures BooksOk()
    {
      hide LogOk, LogSteady, Matched, Granted, Refused, ProgsOk, Bounded, NodeSpec.Campaign;
      BecomePreCandidate();
      var granted := Poll(id, true);
      if |cfg.voters| / 2 + 1 == granted {
        CampaignElection(false);
      } else {
        SendVoteRequests(true, false);
      }
    }

    // -------------------------------------------------------------- sending appends

    /**
     * raft.cpp:1238-1308. A follower that is not paused gets the entries from next on, as many as
     * fit into a message, or the latest snapshot if those entries are gone.
     */
    method MaybeSendAppend(j: Id, sendIfEmpty: bool) returns (sent: bool)
      requires Steady() && role.Leader? && j in cfg.voters && j != id
      modifies this`prs, this`msgs
      ensures Steady() && View() == old(View())
      ensures !sent ==> msgs == old(msgs) && prs == old(prs)
      ensures sent ==>
        && |msgs| == |old(msgs)| + 1 && old(msgs) <= msgs
        && var m := msgs[|old(msgs)|];
           && LeaderMay(cfg.voters, View(), m) && m.to == j
           && Sends(old(prs)[j], m, prs[j]) && prs == old(prs)[j := prs[j]]
           && (!sendIfEmpty ==> m.App? && m.entries != [])
           && (m.Snap? <==> old(prs)[j].next <= log.Abs().base)
           && (m.App? ==> IsLimited(full[m.index..], maxMsgSize, m.entries))
      ensures !sent && !sendIfEmpty ==>
        || prs[j].IsPaused() || prs[j].next > |full| || prs[j].next <= log.Abs().base
      ensures sendIfEmpty ==> sent == !MustWait(old(prs)[j], log.Abs().base)
    {
      hide LogSteady, Matched, Granted, Refused, IsLimited, LeaderMay, Sends, ProgsOk, Bounded, Progress.Prog.IsPaused;
      DrainFacts(cfg.voters, prs, maxInflight, |full|, j);
      TiersOfSteady(log, full);
      var pr := prs[j];
      if pr.IsPaused() {
        return false;
      }
      var t, r := ReadFrom(pr.next);
      var entries := if r.Ok? then r.value else [];
      if entries == [] && !sendIfEmpty {
        return false;
      }
      if r.Err? {
        if !pr.active {
          return false;
        }
        sent := true;
        SendSnapshot(j, pr);
      } else {
        sent := true;
        SendEntries(j, pr, t, entries);
      }
    }

    /** The term before index next, and the entries from there on that fit into one message. */
    method ReadFrom(next: nat) returns (t: Term, r: Result<seq<Entry>>)
      requires LogSteady(log, full) && 1 <= next <= |full| + 1
      ensures r.Err? <==> next <= log.Abs().base
      ensures r.Ok? ==>
        && t == TermAt(full, next - 1)
        && next - 1 + |r.value| <= |full| && r.value == full[next - 1..next - 1 + |r.value|]
        && (r.value == [] <==> next == |full| + 1)
        && IsLimited(full[next - 1..], maxMsgSize, r.value)
        && (r.value != [] ==> r.value[|r.value| - 1].index == next - 1 + |r.value|)
    {
      hide Total, EntrySize, Numbered, Joined, Meet, IsWindow, Log.TermAt, Log.Slice, SnapshotOk, IsLimited, NodeSpec.TermAt;
      ghost var w := log.Abs();
      WindowFacts(w, full);
      var rt := log.Term(next - 1);
      t := rt.value;
      r := log.Entries(next, maxMsgSize);
      if r.Ok? && next <= |full| {
        BatchOfWindow(w, full, next, maxMsgSize, r.value);
      } else {
        NothingIsLimited(maxMsgSize);
        assert full[|full|..] == [];
      }
    }

    static lemma BatchOfWindow(w: Log, full: seq<Entry>, next: nat, max: nat, r: seq<Entry>)
      requires IsWindow(w, full) && w.Valid() && w.Last() == |full| && w.base < next <= |full|
      requires IsLimited(w.Slice(next, w.Last() + 1), max, r)
      ensures IsLimited(full[next - 1..], max, r)
      ensures r != [] && next - 1 + |r| <= |full| && r == full[next - 1..next - 1 + |r|]
      ensures r[|r| - 1].index == next - 1 + |r|
    {
      hide Total, EntrySize;
      WindowSlice(w, full, next, |full| + 1);
      assert full[next - 1..|full|] == full[next - 1..];
      SliceLength(w, next, |full| + 1);
      PrefixOfSlice(w, next, |full| + 1, r);
      WindowSlice(w, full, next, next + |r|);
    }

    method SendSnapshot(j: Id, pr: Progress.Prog)
      requires Steady() && role.Leader? && j in cfg.voters && j != id
      requires pr == prs[j] && !pr.IsPaused() && pr.next <= log.Abs().base
      modifies this`prs, this`msgs
      ensures Steady() && View() == old(View())
      ensures |msgs| == |old(msgs)| + 1 && old(msgs) <= msgs
      ensures var m := msgs[|old(msgs)|];
        && m.Snap? && LeaderMay(cfg.voters, View(), m) && m.to == j
        && Sends(pr, m, prs[j]) && prs == old(prs)[j := prs[j]]
    {
      var s := log.LatestSnapshot();
      var p := pr.BecomeSnapshot(s.index);
      assert s == log.storage.snapshot && 1 <= s.index <= |full|;
      SendAndRecord(j, p, Snap(id, j, term, s.index, s.term, s.data));
    }

    method SendEntries(j: Id, pr: Progress.Prog, t: Term, entries: seq<Entry>)
      requires Steady() && role.Leader? && j in cfg.voters && j != id
      requires pr == prs[j] && !pr.IsPaused() && pr.next - 1 + |entries| <= |full|
      requires t == TermAt(full, pr.next - 1) && entries == full[pr.next - 1..pr.next - 1 + |entries|]
      requires entries != [] ==> entries[|entries| - 1].index == pr.next - 1 + |entries|
      modifies this`prs, this`msgs
      ensures Steady() && View() == old(View())
      ensures |msgs| == |old(msgs)| + 1 && old(msgs) <= msgs
      ensures var m := msgs[|old(msgs)|];
        && m.App? && m.index == pr.next - 1 && m.entries == entries && LeaderMay(cfg.voters, View(), m) && m.to == j
        && Sends(pr, m, prs[j]) && prs == old(prs)[j := prs[j]]
    {
      hide LogSteady, Matched, Granted, Refused, LeaderMay, Sends, ProgsOk, Bounded;
      var p := pr;
      AfterSend(cfg.voters, prs, maxInflight, |full|, j, |entries|);
      var m := App(id, j, term, pr.next - 1, t, entries, log.committed);
      AppendAllowed(cfg.voters, View(), m, pr);
      if entries != [] {
        p := pr.Sent(entries[|entries| - 1].index);
      }
      SendAndRecord(j, p, m);
    }

    /** One message leaves, and the follower's progress records it. */
    method SendAndRecord(j: Id, p: Progress.Prog, m: Message)
      requires Steady() && role.Leader? && j in cfg.voters && j != id
      requires p.Ok() && p.size == maxInflight && p.matched == prs[j].matched
      requires p.next <= |full| + 1 && p.pending <= |full|
      modifies this`prs, this`msgs
      ensures Steady() && View() == old(View())
      ensures prs == old(prs)[j := p] && msgs == old(msgs) + [m]
    {
      hide LogSteady, Matched, Granted, Refused;
      ProgsUpdate(cfg.voters, prs, maxInflight, j, p);
      BoundedUpdate(cfg.voters, prs, |full|, |full|, j, p);
      MatchedUpdate(id, prs, j, p);
      hide ProgsOk, Bounded;
      prs := prs[j := p];
      msgs := msgs + [m];
    }

    /** A message goes to the follower, even an empty one, unless the follower must wait. */
    method SendAppend(j: Id)
      requires Steady() && role.Leader? && j in cfg.voters && j != id
      modifies this`prs, this`msgs
      ensures Steady() && View() == old(View()) && old(msgs) <= msgs
      ensures LeaderSends(cfg.voters, View(), Since(msgs, |old(msgs)|))
      ensures prs == old(prs)[j := prs[j]]
      ensures Tried(old(prs)[j], prs[j], msgs[|old(msgs)|..], log.Abs().base)
      ensures forall k :: SentTo(msgs[|old(msgs)|..], k) == if k == j then msgs[|old(msgs)|..] else []
    {
      hide LogSteady, Matched, Granted, Refused, Bounded, ProgsOk, LeaderMay, Sends, IsLimited, SentTo;
      DrainFacts(cfg.voters, prs, maxInflight, |full|, j);
      TiersOfSteady(log, full);
      ghost var was, p := msgs, prs[j];
      var sent := MaybeSendAppend(j, true);
      if sent {
        SendsMeans(p, msgs[|was|], prs[j], log.Abs().base);
      }
      assert sent ==> msgs[|was|..] == [msgs[|was|]];
      assert !sent ==> msgs[|was|..] == [] && prs[j] == p;
      forall k ensures SentTo(msgs[|was|..], k) == if k == j then msgs[|was|..] else [] {
        AllTo(msgs[|was|..], j, k);
      }
    }

    /** raft.cpp:655-656, the loop that sends all the window lets through. */
    method DrainAppends(j: Id)
      requires Steady() && role.Leader? && j in cfg.voters && j != id
      modifies this`prs, this`msgs
      ensures Steady() && View() == old(View()) && old(msgs) <= msgs
      ensures LeaderSends(cfg.voters, View(), Since(msgs, |old(msgs)|))
      ensures prs == old(prs)[j := prs[j]]
      ensures Flushed(full, j, old(prs)[j], prs[j], msgs[|old(msgs)|..], log.Abs().base)
    {
      hide LogSteady, Matched, Granted, Refused, Bounded, LeaderMay, ProgsOk, Consecutive, Carried;
      ghost var n, k0 := View(), |msgs|;
      DrainFacts(cfg.voters, prs, maxInflight, |full|, j);
      DrainLoop(j);
      DrainFacts(cfg.voters, prs, maxInflight, |full|, j);
      if prs[j].mode.Replicate? {
        forall m | m in msgs[k0..] ensures CutFrom(full, m) {
          assert m in Since(msgs, k0);
          MayIsCut(cfg.voters, n, m);
        }
        CarriedIsSlice(full, msgs[k0..], old(prs)[j].next, prs[j].next);
      }
    }

    method DrainLoop(j: Id)
      requires Steady() && role.Leader? && j in cfg.voters && j != id
      modifies this`prs, this`msgs
      ensures Steady() && View() == old(View()) && old(msgs) <= msgs
      ensures LeaderSends(cfg.voters, View(), Since(msgs, |old(msgs)|))
      ensures prs == old(prs)[j := prs[j]] && forall m | m in msgs[|old(msgs)|..] :: !m.Local() && m.to == j
      ensures prs[j].mode == old(prs)[j].mode
      ensures prs[j].mode.Replicate? ==>
        && |msgs| - |old(msgs)| == |prs[j].items| - |old(prs)[j].items|
        && Consecutive(msgs[|old(msgs)|..], old(prs)[j].next, prs[j].next)
      ensures !prs[j].mode.Replicate? ==>
        && prs[j].next == old(prs)[j].next
        && |msgs| <= |old(msgs)| + if !old(prs)[j].IsPaused() && prs[j].IsPaused() then 1 else 0
      ensures prs[j].IsPaused() || prs[j].next > |full| || prs[j].next <= log.Abs().base
    {
      hide LogSteady, Matched, Granted, Refused, Bounded, LeaderMay, Consecutive, Sends, Drained, ProgsOk;
      DrainFacts(cfg.voters, prs, maxInflight, |full|, j);
      ghost var p0, n := prs[j], View();
      ghost var ms: seq<Message> := [];
      DrainStart(cfg.voters, n, p0);
      TiersOfSteady(log, full);
      ghost var base := log.Abs().base;
      var more := true;
      while more
        invariant Steady() && View() == n && role.Leader?
        invariant j in prs && prs == old(prs)[j := prs[j]] && forall m | m in ms :: !m.Local() && m.to == j
        invariant msgs == old(msgs) + ms && Drained(cfg.voters, n, p0, prs[j], ms)
        invariant log.TiersOk() && log.Abs().base == base
        invariant !more ==> prs[j].IsPaused() || prs[j].next > |full| || prs[j].next <= base
        decreases more, |full| + 2 - prs[j].next, !prs[j].IsPaused()
      {
        ghost var p, was := prs[j], msgs;
        DrainFacts(cfg.voters, prs, maxInflight, |full|, j);
        more := MaybeSendAppend(j, false);
        DrainFacts(cfg.voters, prs, maxInflight, |full|, j);
        if more {
          ghost var m := msgs[|was|];
          assert msgs == was + [m];
          DrainMore(cfg.voters, n, p0, p, prs[j], ms, m);
          ms := ms + [m];
        }
      }
      DrainEnd(cfg.voters, n, p0, prs[j], ms);
      assert msgs[|old(msgs)|..] == ms;
    }

    /** raft.cpp:1336-1343: every other voter is sent to, except those that must wait. */
    method BcastAppend()
      requires Steady() && role.Leader?
      modifies this`prs, this`msgs
      ensures Steady() && View() == old(View()) && old(msgs) <= msgs
      ensures LeaderSends(cfg.voters, View(), Since(msgs, |old(msgs)|))
      ensures AllTried(cfg.voters - {id}, old(prs), prs, msgs[|old(msgs)|..], log.Abs().base)
      ensures id in prs && id in old(prs) && prs[id] == old(prs)[id] && SentTo(msgs[|old(msgs)|..], id) == []
    {
      hide LogSteady, Matched, Granted, Refused, Bounded, ProgsOk, LeaderMay, Tried, SentTo, Casting;
      TiersOfSteady(log, full);
      VotersHaveProgs(cfg.voters, prs, maxInflight);
      var todo := cfg.voters;
      ghost var n, p0, base := View(), prs, log.Abs().base;
      ghost var sent: seq<Message> := [];
      CastStart(cfg.voters, id, n, prs, base);
      while todo != {}
        invariant todo <= cfg.voters && Steady() && View() == n && role.Leader? && msgs == old(msgs) + sent
        invariant log.TiersOk() && log.Abs().base == base
        invariant Casting(cfg.voters, id, n, p0, prs, todo, sent, base)
        decreases |todo|
      {
        var j :| j in todo;
        ghost var was, before := msgs, prs;
        if j == id {
          CastSkip(cfg.voters, id, n, p0, prs, todo, sent, base);
        } else {
          SendAppend(j);
          assert msgs == was + msgs[|was|..];
          CastNext(cfg.voters, id, n, p0, before, prs, todo, j, sent, msgs[|was|..], base);
          sent := sent + msgs[|was|..];
        }
        todo := todo - {j};
      }
      CastEnd(cfg.voters, id, n, p0, prs, sent, base);
      assert msgs[|old(msgs)|..] == sent;
    }

    /** raft.cpp:1310-1324, 1351-1359. */
    method BcastHeartbeat()
      requires Steady() && role.Leader?
      modifies this`msgs
      ensures Steady() && View() == old(View()) && old(msgs) <= msgs
      ensures Since(msgs, |old(msgs)|) == Heartbeats(cfg.voters, View())
    {
      hide LogSteady, Granted, Refused, Bounded, Matched;
      ghost var n := View();
      var out := HeartbeatsTo();
      ghost var was := msgs;
      hide ProgsOk;
      msgs := msgs + out;
      assert msgs[|was|..] == out;
    }

    method HeartbeatsTo() returns (out: seq<Message>)
      requires ProgsOk(cfg.voters, prs, maxInflight)
      ensures (set m | m in out) == Heartbeats(cfg.voters, View())
    {
      out := [];
      var todo := cfg.voters;
      while todo != {}
        invariant todo <= cfg.voters
        invariant (set m | m in out) == Heartbeats(cfg.voters - todo, View())
        decreases |todo|
      {
        ghost var done, was := cfg.voters - todo, out;
        var j :| j in todo;
        todo := todo - {j};
        assert cfg.voters - todo == done + {j};
        KnownMatched(id, prs, j);
        if j != id {
          var m := Message.Heartbeat(id, j, term, Min(prs[j].matched, log.committed));
          out := out + [m];
          assert (set m | m in out) == (set m | m in was) + {m};
          assert Heartbeats(done + {j}, View()) == Heartbeats(done, View()) + {m};
        } else {
          assert Heartbeats(done + {j}, View()) == Heartbeats(done, View());
        }
      }
      assert cfg.voters - todo == cfg.voters;
    }

    // -------------------------------------------------------------- following

    method Reply(m: Message)
      modifies this`msgs
      ensures msgs == old(msgs) + [m]
      ensures Since(msgs, |old(msgs)|) == {m}
    {
      ghost var was := msgs;
      msgs := msgs + [m];
      assert msgs[|was|..] == [m];
    }

    /** raft.cpp:1022-1062. */
    method HandleAppendEntries(m: Message)
      requires Steady() && role.Follower? && m.App? && Numbered(m.entries, m.index + 1)
      requires !LogFatal(View(), m)
      modifies this`full, this`msgs, log`committed, log.unstable
      ensures Steady() && old(msgs) <= msgs
      ensures (View(), Since(msgs, |old(msgs)|)) == NodeSpec.HandleAppend(old(View()), m)
    {
      hide LogSteady, Matched, Granted, Refused, ProgsOk, Bounded, Merge, FindConflict, TermAt, Numbered;
      if m.index < log.committed {
        Reply(AppResp(id, m.from, term, log.committed, false, 0));
        return;
      }
      ghost var n := View();
      var lastNew, ok := MergeInto(log, full, m.index, m.logTerm, m.commit, m.entries);
      if ok {
        full := Merge(full, m.index, m.entries);
        Reply(AppResp(id, m.from, term, lastNew, false, 0));
      } else {
        var last := LastOf();
        Reply(AppResp(id, m.from, term, m.index, true, last));
      }
    }

    /** raft.cpp:1064-1071. */
    method HandleHeartbeat(m: Message)
      requires Steady() && role.Follower? && m.Heartbeat? && !LogFatal(View(), m)
      modifies this`msgs, log`committed
      ensures Steady() && old(msgs) <= msgs
      ensures (View(), Since(msgs, |old(msgs)|)) == NodeSpec.HandleHeartbeat(old(View()), m)
    {
      hide LogSteady, Matched, Granted, Refused, ProgsOk, Bounded;
      CommitThrough(log, full, m.commit);
      Reply(HeartbeatResp(id, m.from, term));
    }

    /** raft.cpp:1073-1144; the index meant for the answer is put into the question, so it stays 0. */
    method HandleSnapshot(m: Message)
      requires Steady() && role.Follower? && m.Snap? && !LogFatal(View(), m)
      requires |m.prefix| == m.index && Numbered(m.prefix, 1) && m.logTerm == TermAt(m.prefix, m.index)
      modifies this`full, this`msgs, this`prs, log`committed, log.unstable
      ensures Valid() && Settles(m, old(log.committed), old(full)) && old(msgs) <= msgs
      ensures (View(), Since(msgs, |old(msgs)|)) == NodeSpec.HandleSnapshot(old(View()), m)
    {
      hide LogSteady, Matched, Granted, Refused, ProgsOk, Bounded, FreshProgs, Numbered, TermAt;
      var _ := Restore(m);
      Reply(AppResp(id, m.from, term, 0, false, 0));
    }

    method Restore(m: Message) returns (restored: bool)
      requires Steady() && role.Follower? && m.Snap? && !LogFatal(View(), m)
      requires |m.prefix| == m.index && Numbered(m.prefix, 1) && m.logTerm == TermAt(m.prefix, m.index)
      modifies this`full, this`prs, log`committed, log.unstable
      ensures Valid() && Settles(m, old(log.committed), old(full))
      ensures restored == (m.index > old(log.committed) && TermAt(old(full), m.index) != m.logTerm)
      ensures View() == NodeSpec.HandleSnapshot(old(View()), m).0
      ensures prs == if restored then FreshProgs(cfg.voters, id, m.index, maxInflight) else old(prs)
    {
      hide Matched, Granted, Refused, ProgsOk, Bounded, FreshProgs, Numbered, IsWindow, Joined, Meet, SnapshotOk, Log.TermAt;
      WindowFacts(log.Abs(), full);
      if m.index <= log.committed {
        return false;
      }
      var matches := log.MatchTerm(m.index, m.logTerm);
      if matches {
        CommitThrough(log, full, m.index);
        return false;
      }
      FreshOk(cfg.voters, id, m.index, maxInflight);
      MatchedFresh(cfg.voters, id, m.index, maxInflight);
      hide LogSteady, LogOk;
      InstallSnapshot(log, full, Snapshot(m.index, m.logTerm, m.prefix));
      full := m.prefix;
      prs := FreshProgs(cfg.voters, id, m.index, maxInflight);
      return true;
    }

    method HandleFromLeader(m: Message)
      requires Steady() && role.Follower? && WellSent(m) && (m.App? || m.Heartbeat? || m.Snap?) && !LogFatal(View(), m)
      modifies this`full, this`msgs, this`prs, log`committed, log.unstable
      ensures Valid() && Settles(m, old(log.committed), old(full)) && old(msgs) <= msgs
      ensures (View(), Since(msgs, |old(msgs)|)) == NodeSpec.HandleFromLeader(old(View()), m)
    {
      hide LogSteady, Matched, Granted, Refused, ProgsOk, Bounded, LogFatal, NodeSpec.HandleAppend, NodeSpec.HandleHeartbeat,
        NodeSpec.HandleSnapshot, Numbered, TermAt;
      match m
      case App(_, _, _, _, _, _, _) => HandleAppendEntries(m); SteadyIsValid();
      case Heartbeat(_, _, _, _) => HandleHeartbeat(m); SteadyIsValid();
      case Snap(_, _, _, _, _, _) => HandleSnapshot(m);
    }

    lemma SteadyIsValid()
      requires Steady()
      ensures Valid() && forall m: Message, k: nat, f: seq<Entry> {:trigger Settles(m, k, f)} :: !m.Snap? || full == f ==> Settles(m, k, f)
    {
    }

    // -------------------------------------------------------------- leading

    /** A follower's progress changes, but not what is known to be on its disk. */
    method SetProg(j: Id, p: Progress.Prog)
      requires Steady() && role.Leader? && j in cfg.voters
      requires p.Ok() && p.size == maxInflight && p.matched == prs[j].matched && (j == id ==> p.items == [])
      requires p.next <= |full| + 1 && p.pending <= |full|
      modifies this`prs
      ensures Steady() && View() == old(View()) && prs == old(prs)[j := p]
    {
      hide LogSteady, Matched, Granted, Refused;
      ProgsUpdate(cfg.voters, prs, maxInflight, j, p);
      BoundedUpdate(cfg.voters, prs, |full|, |full|, j, p);
      MatchedUpdate(id, prs, j, p);
      hide ProgsOk, Bounded;
      prs := prs[j := p];
    }

    /** raft.cpp:513-518, 1489-1502. */
    method CheckQuorumActive() returns (ok: bool)
      requires Core()
      ensures ok == (|Heard(id, prs, cfg.voters)| >= Quorum.Size(cfg.voters))
    {
      hide ProgsOk, Bounded;
      var act := 0;
      var todo := cfg.voters;
      VotersHaveProgs(cfg.voters, prs, maxInflight);
      assert Heard(id, prs, {}) == {};
      while todo != {}
        invariant todo <= cfg.voters && act == |Heard(id, prs, cfg.voters - todo)|
        decreases |todo|
      {
        ghost var done := cfg.voters - todo;
        var j :| j in todo;
        todo := todo - {j};
        assert cfg.voters - todo == done + {j};
        if j == id || prs[j].active {
          assert Heard(id, prs, done + {j}) == Heard(id, prs, done) + {j};
          act := act + 1;
        } else {
          assert Heard(id, prs, done + {j}) == Heard(id, prs, done);
        }
      }
      assert cfg.voters - todo == cfg.voters;
      ok := act >= |cfg.voters| / 2 + 1;
    }

    /** raft.cpp:539-556: a configuration change is let through only when none can be pending. */
    method ScreenProposal(entries: seq<Entry>, last: nat) returns (ents: seq<Entry>)
      modifies this`pendingConf
      ensures (ents, pendingConf) == Quota.Screen(entries, last, log.applied, old(pendingConf))
    {
      ents := [];
      var i := 0;
      while i < |entries|
        invariant 0 <= i <= |entries|
        invariant (ents, pendingConf) == Quota.Screen(entries[..i], last, log.applied, old(pendingConf))
      {
        assert entries[..i + 1][..i] == entries[..i];
        if entries[i].kind.ConfChange? {
          if pendingConf > log.applied {
            ents := ents + [NOOP];
          } else {
            pendingConf := last + i + 1;
            ents := ents + [entries[i]];
          }
        } else {
          ents := ents + [entries[i]];
        }
        i := i + 1;
      }
      assert entries[..i] == entries;
    }

    /**
     * raft.cpp:519-563. A dropped proposal may still have moved pendingConf; what is appended is
     * exactly what the books allow.
     */
    method Propose(entries: seq<Entry>)
      requires Steady() && role.Leader? && entries != []
      modifies this`pendingConf, this`prs, this`uncommitted, this`full, this`msgs, log`committed, log.unstable
      ensures Steady() && old(msgs) <= msgs
      ensures ProposalFlow(cfg.voters, old(View()), old(Books()), entries, View(), Books(), msgs[|old(msgs)|..], log.Abs().base)
      ensures LeaderSends(cfg.voters, View(), Since(msgs, |old(msgs)|))
    {
      hide LogSteady, Matched, Granted, Refused, Bounded, ProgsOk, LeaderMay, NodeSpec.AppendEntry, Quota.Screen, Quota.Payload,
        AllTried, SentTo;
      assert Since(msgs, |msgs|) == {};
      if leadTransferee != NONE {
        return;
      }
      var last := LastOf();
      var ents := ScreenProposal(entries, last);
      ghost var before := prs;
      var ok := AppendEntry(ents);
      if ok {
        ghost var mid := prs;
        BcastAppend();
        TiersOfSteady(log, full);
        OthersTried(cfg.voters, id, before, mid, prs, msgs[|old(msgs)|..], log.Abs().base);
      }
    }

    method StepProp(m: Message)
      requires Steady() && role.Leader? && m.Prop? && m.entries != []
      modifies this, log`committed, log.unstable
      ensures Steady() && old(msgs) <= msgs
      ensures NodeSpec.StepLeader(cfg, old(View()), m, View(), Since(msgs, |old(msgs)|))
      ensures LeaderFlow(cfg.voters, old(View()), old(Books()), m, View(), Books(), msgs[|old(msgs)|..], log.Abs().base)
      ensures old(BooksOk()) ==> BooksOk()
    {
      hide LogSteady, Matched, Granted, Refused, Bounded, ProgsOk, LeaderMay, NodeSpec.AppendEntry, Quota.Screen, Quota.Payload,
        AllTried, SentTo, InOrder;
      AppliedWithin(log, full);
      Quota.ScreenAllowsOne(m.entries, |full|, log.applied, pendingConf);
      Propose(m.entries);
      TiersOfSteady(log, full);
      if old(BooksOk()) {
        ProposalKeepsBooks(cfg.voters, old(View()), old(Books()), m.entries, View(), Books(), msgs[|old(msgs)|..], log.Abs().base);
      }
      assert Since(msgs, |msgs|) == {};
    }

    /** raft.cpp:609-664. */
    method StepAppResp(m: Message)
      requires Steady() && role.Leader? && m.AppResp? && m.from != id
      requires !m.reject ==> m.index <= |full|
      modifies this`prs, this`msgs, log`committed
      ensures Steady() && old(msgs) <= msgs
      ensures NodeSpec.StepLeader(cfg, old(View()), m, View(), Since(msgs, |old(msgs)|))
      ensures AckFlow(cfg.voters, View(), log.committed != old(log.committed), old(Books()), m, Books(),
                      msgs[|old(msgs)|..], log.Abs().base)
    {
      hide LogSteady, Matched, Granted, Refused, LeaderMay, NodeSpec.MaybeCommit, Served, Tried, Bounded, ProgsOk,
        Progress.Prog.Ok, Progress.Prog.Acked, Progress.Prog.Rejects, Progress.Prog.Rejected, Progress.Prog.IsPaused;
      assert Since(msgs, |msgs|) == {};
      VotersHaveProgs(cfg.voters, prs, maxInflight);
      if m.from !in prs {
        return;
      }
      var pr := prs[m.from].(active := true);
      KnownMatched(id, prs, m.from);
      if m.reject {
        Rejection(m.from, pr, m.index, m.hint);
      } else if m.index <= pr.matched {
        AckSettles(m.from, pr, m.index);
        SetProg(m.from, pr.Acked(m.index));
      } else {
        ghost var mid, first, rest := Acceptance(m.from, pr, m.index);
        assert msgs[|old(msgs)|..] == first + rest + Farewell(View(), leadTransferee, m.from, prs[m.from].matched);
      }
    }

    lemma AckSettles(j: Id, pr: Progress.Prog, n: nat)
      requires Steady() && role.Leader? && j in cfg.voters && j != id && pr == prs[j].(active := true) && n <= pr.matched
      ensures var p := pr.Acked(n);
        p.Ok() && p.size == maxInflight && p.matched == prs[j].matched && p.next <= |full| + 1 && p.pending <= |full|
    {
      hide LogSteady;
      AckInBounds(pr, |full|, n);
    }

    method Rejection(j: Id, pr: Progress.Prog, rejected: nat, last: nat)
      requires Steady() && role.Leader? && j in cfg.voters && j != id && pr == prs[j].(active := true)
      modifies this`prs, this`msgs
      ensures Steady() && View() == old(View()) && old(msgs) <= msgs
      ensures LeaderSends(cfg.voters, View(), Since(msgs, |old(msgs)|))
      ensures prs == old(prs)[j := prs[j]]
      ensures
        if pr.Rejects(rejected)
        then Tried(pr.Rejected(rejected, last), prs[j], msgs[|old(msgs)|..], log.Abs().base)
        else prs[j] == pr && msgs == old(msgs)
    {
      hide LogSteady, Matched, Granted, Refused, LeaderMay, Tried, ProgsOk, Bounded, Progress.Prog.Ok;
      RejectInBounds(cfg.voters, prs, maxInflight, |full|, j, rejected, last);
      if pr.Rejects(rejected) {
        var p := pr.MaybeDecreasesTo(rejected, last);
        if p.mode.Replicate? {
          p := p.BecomeProbe();
        }
        SetProg(j, p);
        SendAppend(j);
      } else {
        SetProg(j, pr);
      }
      assert Since(old(msgs), |old(msgs)|) == {};
    }

    /** raft.cpp:623-661, for news. */
    method Acceptance(j: Id, pr: Progress.Prog, index: nat)
      returns (ghost mid: Progs, ghost first: seq<Message>, ghost rest: seq<Message>)
      requires Steady() && role.Leader? && j in cfg.voters && j != id && pr == prs[j].(active := true)
      requires pr.matched < index <= |full|
      modifies this`prs, this`msgs, log`committed
      ensures Steady() && j in prs
      ensures msgs == old(msgs) + first + rest + Farewell(View(), leadTransferee, j, prs[j].matched)
      ensures View() == NodeSpec.MaybeCommit(cfg.voters, old(View()).(matched := old(View()).matched[j := index]))
      ensures LeaderSends(cfg.voters, View(), Since(msgs, |old(msgs)|))
      ensures Served(cfg.voters, View(), j, log.committed != old(log.committed), pr.IsPaused(), old(prs)[j := pr.Acked(index)],
                     mid, prs, first, rest, log.Abs().base)
    {
      hide LogSteady, Matched, Granted, Refused, LeaderMay, Bounded, ProgsOk, NodeSpec.MaybeCommit, Served,
        Progress.Prog.Acked, Progress.Prog.IsPaused;
      var oldPaused := pr.IsPaused();
      SetMatch(j, pr, index);
      var changed := MaybeCommit();
      mid, first, rest := Serve(j, changed, oldPaused);
      ghost var sent := msgs;
      HandOver(j);
      SinceGrows(sent, msgs, |old(msgs)|);
    }

    /** raft.cpp:642-656: everyone learns of a new commit index, and the follower gets what it can take. */
    method Serve(j: Id, changed: bool, oldPaused: bool) returns (ghost mid: Progs, ghost first: seq<Message>, ghost rest: seq<Message>)
      requires Steady() && role.Leader? && j in cfg.voters && j != id
      modifies this`prs, this`msgs
      ensures Steady() && View() == old(View()) && msgs == old(msgs) + first + rest
      ensures LeaderSends(cfg.voters, View(), Since(msgs, |old(msgs)|))
      ensures Served(cfg.voters, View(), j, changed, oldPaused, old(prs), mid, prs, first, rest, log.Abs().base)
    {
      hide LogSteady, Matched, Granted, Refused, LeaderMay, Bounded, ProgsOk, Flushed, AllTried, Tried, SentTo;
      assert Since(msgs, |msgs|) == {};
      VotersHaveProgs(cfg.voters, prs, maxInflight);
      if changed {
        BcastAppend();
      } else if oldPaused {
        SendAppend(j);
      }
      VotersHaveProgs(cfg.voters, prs, maxInflight);
      ghost var sent := msgs;
      mid, first := prs, msgs[|old(msgs)|..];
      DrainAppends(j);
      rest := msgs[|sent|..];
      SinceGrows(sent, msgs, |old(msgs)|);
    }

    /** raft.cpp:657-661. */
    method HandOver(j: Id)
      requires Steady() && role.Leader? && j in cfg.voters && j != id
      modifies this`msgs
      ensures Steady() && View() == old(View())
      ensures j in prs && msgs == old(msgs) + Farewell(View(), leadTransferee, j, prs[j].matched)
      ensures LeaderSends(cfg.voters, View(), Since(msgs, |old(msgs)|))
    {
      hide LogSteady, Matched, Granted, Refused, LeaderMay, Bounded, ProgsOk;
      assert Since(msgs, |msgs|) == {};
      var last := LastOf();
      VotersHaveProgs(cfg.voters, prs, maxInflight);
      if j == leadTransferee && prs[j].matched == last {
        Reply(TimeoutNow(id, j, term));
        TimeoutAllowed(cfg.voters, View(), j);
      }
    }

    method SetMatch(j: Id, pr: Progress.Prog, index: nat)
      requires Steady() && role.Leader? && j in cfg.voters && j != id && pr == prs[j].(active := true)
      requires pr.matched < index <= |full|
      modifies this`prs
      ensures Steady() && View() == old(View()).(matched := old(View()).matched[j := index])
      ensures prs == old(prs)[j := pr.Acked(index)]
    {
      hide LogSteady, Matched, Granted, Refused, Progress.Prog.Ok, Progress.Prog.Acked;
      var p := pr.Acked(index);
      ActiveOk(cfg.voters, prs, maxInflight, |full|, j);
      AckInBounds(pr, |full|, index);
      ProgsUpdate(cfg.voters, prs, maxInflight, j, p);
      BoundedUpdate(cfg.voters, prs, |full|, |full|, j, p);
      MatchedUpdate(id, prs, j, p);
      hide ProgsOk, Bounded;
      prs := prs[j := p];
    }

    /** raft.cpp:666-676. */
    method StepHeartbeatResp(m: Message)
      requires Steady() && role.Leader? && m.HeartbeatResp? && m.from != id
      modifies this`prs, this`msgs
      ensures Steady() && old(msgs) <= msgs
      ensures NodeSpec.StepLeader(cfg, old(View()), m, View(), Since(msgs, |old(msgs)|))
      ensures LeaderFlow(cfg.voters, old(View()), old(Books()), m, View(), Books(), msgs[|old(msgs)|..], log.Abs().base)
    {
      hide LogSteady, Matched, Granted, Refused, LeaderMay, ProgsOk, Bounded, Tried;
      assert Since(msgs, |msgs|) == {};
      VotersHaveProgs(cfg.voters, prs, maxInflight);
      if m.from !in prs {
        return;
      }
      var p := prs[m.from].HeartbeatAnswered();
      HeartbeatInBounds(cfg.voters, prs, maxInflight, |full|, m.from);
      SetProg(m.from, p);
      var last := LastOf();
      if p.matched < last {
        SendAppend(m.from);
      }
    }

    /** raft.cpp:704-737. */
    method StepReport(m: Message)
      requires Steady() && role.Leader? && (m.SnapStatus? || m.Unreachable?)
      modifies this`prs
      ensures Steady() && View() == old(View())
      ensures LeaderFlow(cfg.voters, old(View()), old(Books()), m, View(), Books(), [], log.Abs().base)
    {
      hide LogSteady, Matched, Granted, Refused;
      if m.from !in prs {
        return;
      }
      var p := if m.SnapStatus? then prs[m.from].SnapshotReported(m.reject) else prs[m.from].Unreachable();
      SetProg(m.from, p);
    }

    /** raft.cpp:739-782. */
    method StepTransferLeader(m: Message)
      requires Steady() && role.Leader? && m.TransferLeader?
      modifies this`leadTransferee, this`prs, this`msgs
      ensures Steady() && View() == old(View()) && old(msgs) <= msgs
      ensures LeaderSends(cfg.voters, View(), Since(msgs, |old(msgs)|))
      ensures LeaderFlow(cfg.voters, old(View()), old(Books()), m, View(), Books(), msgs[|old(msgs)|..], log.Abs().base)
    {
      hide LogSteady, Matched, Granted, Refused, LeaderMay, Bounded, ProgsOk, Tried;
      assert Since(msgs, |msgs|) == {};
      VotersHaveProgs(cfg.voters, prs, maxInflight);
      if m.from !in prs {
        return;
      }
      if leadTransferee != NONE {
        if leadTransferee == m.from {
          return;
        }
        leadTransferee := NONE;
      }
      if m.from == id {
        return;
      }
      leadTransferee := m.from;
      var last := LastOf();
      if prs[m.from].matched == last {
        Reply(TimeoutNow(id, m.from, term));
        TimeoutAllowed(cfg.voters, View(), m.from);
      } else {
        SendAppend(m.from);
      }
    }

    /** raft.cpp:506-785. */
    method StepLeader(m: Message)
      requires Steady() && role.Leader? && WellSent(m)
      requires m.AppResp? || m.HeartbeatResp? ==> m.from != id
      requires m.AppResp? && !m.reject ==> m.index <= |full|
      modifies this, log`committed, log.unstable
      ensures Steady() && old(msgs) <= msgs && (m.Snap? ==> full == old(full))
      ensures NodeSpec.StepLeader(cfg, old(View()), m, View(), Since(msgs, |old(msgs)|))
      ensures LeaderFlow(cfg.voters, old(View()), old(Books()), m, View(), Books(), msgs[|old(msgs)|..], log.Abs().base)
      ensures old(BooksOk()) ==> BooksOk()
    {
      hide LogSteady, Matched, Granted, Refused, LeaderMay, Bounded, ProgsOk, NodeSpec.AppendEntry, NodeSpec.MaybeCommit,
        Heartbeats, Numbered, TermAt, AckFlow, ProposalFlow, TransferFlow, Tried, Heard;
      TiersOfSteady(log, full);
      assert Since(msgs, |msgs|) == {};
      match m
      case Beat => BcastHeartbeat();
      case CheckQuorum =>
        var active := CheckQuorumActive();
        if !active {
          BecomeFollower(term, NONE);
        }
      case Prop(_, _, _) => StepProp(m);
      case AppResp(_, _, _, _, _, _) => StepAppResp(m);
      case HeartbeatResp(_, _, _) => StepHeartbeatResp(m);
      case SnapStatus(_, _) => StepReport(m);
      case Unreachable(_) => StepReport(m);
      case TransferLeader(_) => StepTransferLeader(m);
      case _ =>
    }

    // -------------------------------------------------------------- the other roles

    /** raft.cpp:803-826, whichever kind of answer it is. */
    method CountVote(from: Id, v: bool)
      requires Steady() && (role.Candidate? || role.PreCandidate?)
      modifies this, log`committed, log.unstable
      ensures Steady() && old(msgs) <= msgs
      ensures NodeSpec.CountVote(cfg, old(View()), from, v, View(), Since(msgs, |old(msgs)|))
      ensures !old(role).PreCandidate? && role.Leader? ==>
        && uncommitted == 0 && pendingConf == |old(full)| && leadTransferee == NONE
        && log.TiersOk()
        && AllTried(cfg.voters - {id}, OwnReplicates(FreshProgs(cfg.voters, id, |old(full)|, maxInflight), id, |full|), prs,
                    msgs[|old(msgs)|..], log.Abs().base)
      ensures BooksOk()
    {
      hide LogSteady, Matched, Granted, Refused, LeaderMay, Bounded, ProgsOk, NodeSpec.BecomeLeader, NodeSpec.Campaign,
        AllTried, SentTo, FreshProgs, OwnReplicates;
      var granted := Poll(from, v);
      VotesSplit(votes);
      assert Since(msgs, |msgs|) == {};
      if |cfg.voters| / 2 + 1 == granted {
        if role == PreCandidate {
          CampaignElection(false);
        } else {
          BecomeLeader();
          BcastAppend();
          TiersOfSteady(log, full);
        }
      } else if |cfg.voters| / 2 + 1 == |votes| - granted {
        BecomeFollower(term, NONE);
      }
    }

    /** raft.cpp:794-802: the term has its leader. */
    method YieldTo(m: Message)
      requires Steady() && WellSent(m) && (m.App? || m.Heartbeat? || m.Snap?)
      requires !LogFatal(NodeSpec.BecomeFollower(View(), m.term, m.from), m)
      modifies this, log`committed, log.unstable
      ensures Valid() && Settles(m, old(log.committed), old(full)) && old(msgs) <= msgs
      ensures (View(), Since(msgs, |old(msgs)|))
        == NodeSpec.HandleFromLeader(NodeSpec.BecomeFollower(old(View()), m.term, m.from), m)
      ensures role.Follower?
    {
      hide LogSteady, LogOk, Matched, Granted, Refused, Bounded, ProgsOk, NodeSpec.HandleFromLeader, LogFatal,
        NodeSpec.BecomeFollower, WellSent;
      BecomeFollower(m.term, m.from);
      HandleFromLeader(m);
    }

    /** raft.cpp:957-974. */
    method Heed(m: Message)
      requires Steady() && role.Follower? && WellSent(m) && (m.App? || m.Heartbeat? || m.Snap?)
      requires !LogFatal(View().(lead := m.from), m)
      modifies this, log`committed, log.unstable
      ensures Valid() && Settles(m, old(log.committed), old(full)) && old(msgs) <= msgs
      ensures (View(), Since(msgs, |old(msgs)|)) == NodeSpec.HandleFromLeader(old(View()).(lead := m.from), m)
      ensures role.Follower?
    {
      hide LogSteady, LogOk, Matched, Granted, Refused, Bounded, ProgsOk, NodeSpec.HandleFromLeader, LogFatal, WellSent;
      Hear(m.from);
      HandleFromLeader(m);
    }

    /** raft.cpp:787-836. */
    method StepCandidate(m: Message)
      requires Steady() && (role.Candidate? || role.PreCandidate?) && WellSent(m)
      requires (m.App? || m.Heartbeat? || m.Snap?) ==>
        m.term == term && !LogFatal(NodeSpec.BecomeFollower(View(), m.term, m.from), m)
      modifies this, log`committed, log.unstable
      ensures Valid() && Settles(m, old(log.committed), old(full)) && old(msgs) <= msgs
      ensures NodeSpec.StepCandidate(cfg, old(View()), m, View(), Since(msgs, |old(msgs)|))
      ensures old(BooksOk()) ==> BooksOk()
      ensures role.Leader? ==> Steady()
    {
      hide LogSteady, LogOk, Matched, Granted, Refused, LeaderMay, Bounded, ProgsOk, NodeSpec.CountVote, NodeSpec.HandleFromLeader,
        LogFatal, NodeSpec.BecomeFollower, Numbered, TermAt;
      assert Since(msgs, |msgs|) == {};
      match m
      case App(_, _, _, _, _, _, _) => YieldTo(m);
      case Heartbeat(_, _, _, _) => YieldTo(m);
      case Snap(_, _, _, _, _, _) => YieldTo(m);
      case VoteResp(_, _, _, _) => CountVote(m.from, !m.reject); SteadyIsValid();
      case PreVoteResp(_, _, _, _) => CountVote(m.from, !m.reject); SteadyIsValid();
      case _ => SteadyIsValid();
    }

    /** raft.cpp:944-1020; forward says whether proposals are passed on to the leader. */
    method StepFollower(m: Message, forward: bool)
      requires Steady() && role.Follower? && WellSent(m)
      requires (m.App? || m.Heartbeat? || m.Snap?) ==> !LogFatal(View().(lead := m.from), m)
      modifies this, log`committed, log.unstable
      ensures Valid() && Settles(m, old(log.committed), old(full)) && old(msgs) <= msgs
      ensures NodeSpec.StepFollower(cfg, old(View()), m, View(), Since(msgs, |old(msgs)|))
      ensures m.Prop? ==> msgs == old(msgs) + if lead != NONE && forward then [Prop(id, lead, m.entries)] else []
      ensures old(BooksOk()) ==> BooksOk()
      ensures role.Leader? ==> Steady()
    {
      hide LogSteady, LogOk, Matched, Granted, Refused, Bounded, ProgsOk, NodeSpec.HandleFromLeader,
        LogFatal, NodeSpec.Campaign, Numbered, TermAt;
      assert Since(msgs, |msgs|) == {};
      match m
      case App(_, _, _, _, _, _, _) => Heed(m);
      case Heartbeat(_, _, _, _) => Heed(m);
      case Snap(_, _, _, _, _, _) => Heed(m);
      case TimeoutNow(_, _, _) => CampaignElection(true); SteadyIsValid();
      case Prop(_, _, _) =>
        if lead != NONE && forward {
          Reply(Prop(id, lead, m.entries));
        }
        SteadyIsValid();
      case _ => SteadyIsValid();
    }

    method Hear(from: Id)
      requires Steady()
      modifies this`lead
      ensures Steady() && View() == old(View()).(lead := from)
    {
      hide LogSteady, Matched, Granted, Refused, Bounded, ProgsOk;
      lead := from;
    }

    /** raft.cpp:386-417, 13-21: a committed configuration change must be applied before an election. */
    method StepHup()
      requires Steady()
      modifies this, log`committed, log.unstable
      ensures Steady() && old(msgs) <= msgs
      ensures NodeSpec.StepHup(cfg, old(View()), View(), Since(msgs, |old(msgs)|))
      ensures old(log.applied <= log.committed <= |full|)
      ensures !old(role).Leader? ==>
        && var waiting := old(full[log.applied..log.committed]);
           && (!HasConf(waiting) ==>
                (View(), Since(msgs, |old(msgs)|))
                == if id in cfg.preVote then NodeSpec.PreCampaign(cfg.voters, old(View()))
                   else NodeSpec.Campaign(cfg.voters, old(View()), false))
           && (HasConf(waiting) && Total(waiting) <= UNLIMITED ==> View() == old(View()) && msgs == old(msgs))
      ensures old(BooksOk()) ==> BooksOk()
    {
      hide LogSteady, Matched, Granted, Refused, Bounded, ProgsOk, NodeSpec.Campaign, NodeSpec.PreCampaign, Total;
      assert Since(msgs, |msgs|) == {};
      AppliedWithin(log, full);
      if role == Leader {
        return;
      }
      var pending := PendingConf();
      if pending > 0 && log.committed > log.applied {
        return;
      }
      if id in cfg.preVote {
        PreCampaign();
      } else {
        CampaignElection(false);
      }
    }

    /** The unapplied committed entries are all still there, so reading them never fails. */
    method PendingConf() returns (n: nat)
      requires LogSteady(log, full)
      ensures log.applied <= log.committed <= |full|
      ensures n > 0 ==> HasConf(full[log.applied..log.committed])
      ensures HasConf(full[log.applied..log.committed]) && Total(full[log.applied..log.committed]) <= UNLIMITED ==> n > 0
    {
      hide LogSteady, Total, IsLimited;
      var ents := Unapplied();
      n := 0;
      var i := 0;
      while i < |ents|
        invariant 0 <= i <= |ents|
        invariant n > 0 <==> HasConf(ents[..i])
      {
        assert ents[..i + 1] == ents[..i] + [ents[i]];
        if ents[i].kind.ConfChange? {
          n := n + 1;
        }
        i := i + 1;
      }
      assert ents[..i] == ents;
    }

    method Unapplied() returns (ents: seq<Entry>)
      requires LogSteady(log, full)
      ensures log.applied <= log.committed <= |full|
      ensures ents <= full[log.applied..log.committed]
      ensures Total(full[log.applied..log.committed]) <= UNLIMITED ==> ents == full[log.applied..log.committed]
    {
      hide Total, EntrySize, Numbered, Joined, Meet, SnapshotOk, IsLimited;
      ghost var w := log.Abs();
      WindowFacts(w, full);
      var r := log.Slice(log.applied + 1, log.committed + 1, UNLIMITED);
      ents := r.value;
      WindowSlice(w, full, log.applied + 1, log.committed + 1);
      assert w.Slice(log.applied + 1, log.committed + 1) == full[log.applied..log.committed];
      LimitedIsPrefix(full[log.applied..log.committed], UNLIMITED, ents);
    }

    /** raft.cpp:418-497. */
    method HandleVote(m: Message)
      requires Steady() && (m.Vote? || m.PreVote?)
      modifies this`vote, this`msgs
      ensures Steady() && old(msgs) <= msgs
      ensures (View(), Since(msgs, |old(msgs)|)) == NodeSpec.HandleVote(old(View()), m)
    {
      hide LogSteady, Matched, Granted, Refused, Bounded, ProgsOk, NodeSpec.LastTerm;
      var last, lastTerm := LastEntry();
      var canVote := vote == m.from || (vote == NONE && lead == NONE) || (m.PreVote? && m.term > term);
      if canVote && (m.logTerm > lastTerm || (m.logTerm == lastTerm && m.index >= last)) {
        if m.Vote? {
          Reply(VoteResp(id, m.from, m.term, false));
          vote := m.from;
        } else {
          Reply(PreVoteResp(id, m.from, m.term, false));
        }
      } else if m.Vote? {
        Reply(VoteResp(id, m.from, term, true));
      } else {
        Reply(PreVoteResp(id, m.from, term, true));
      }
    }

    // -------------------------------------------------------------- step

    /** The messages a node can be asked to step: none that would throw, none it could not get. */
    ghost predicate CanStep(m: Message)
      reads this, log
    {
      && WellSent(m)
      && !Fatal(cfg, View(), m)
      && (m.AppResp? || m.HeartbeatResp? ==> m.from != id)
      // an acknowledgement in the leader's own term never exceeds the leader's log
      && (m.AppResp? && !m.reject && m.term == term && role.Leader? ==> m.index <= |full|)
    }

    /** raft.cpp:279-383, the part before the dispatch; answers whether the message is done with. */
    method CompareTerms(m: Message, lease: bool) returns (done: bool)
      requires Steady()
      modifies this
      ensures Steady() && full == old(full) && old(msgs) <= msgs
      ensures done ==>
        if lease && InLease(cfg, old(View()), m) then View() == old(View()) && msgs == old(msgs)
        else
          && m.TermField() != 0 && m.TermField() < old(term) && View() == old(View())
          && Since(msgs, |old(msgs)|) == StaleReply(cfg, old(View()), m)
      ensures lease && InLease(cfg, old(View()), m) ==> done
      ensures !done ==>
        && View() == CatchUp(old(View()), m) && msgs == old(msgs)
        && (m.TermField() == 0 || m.TermField() >= old(term))
        && (m.TermField() == 0 || m.TermField() == old(term) ==> View() == old(View()) && Books() == old(Books()))
      ensures old(BooksOk()) ==> BooksOk()
    {
      hide LogSteady, Matched, Granted, Refused, Bounded, ProgsOk, Dispatch;
      assert Since(msgs, |msgs|) == {};
      if m.TermField() == 0 {
        return false;
      }
      if m.TermField() > term {
        if m.Vote? || m.PreVote? {
          var force := m.Vote? && m.force;
          var inLease := cfg.checkQuorum && lead != NONE && lease;
          if !force && inLease {
            return true;
          }
        }
        if m.PreVote? || (m.PreVoteResp? && !m.reject) {
        } else if m.App? || m.Heartbeat? || m.Snap? {
          BecomeFollower(m.term, m.from);
        } else {
          BecomeFollower(m.term, NONE);
        }
        return false;
      }
      if m.TermField() < term {
        if (cfg.checkQuorum || id in cfg.preVote) && (m.Heartbeat? || m.App?) {
          Reply(AppResp(id, m.from, term, 0, false, 0));
        } else if m.PreVote? {
          Reply(PreVoteResp(id, m.from, term, true));
        }
        return true;
      }
      return false;
    }

    /** raft.cpp:385-504. */
    method Handle(m: Message, forward: bool)
      requires Steady() && WellSent(m)
      requires (m.App? || m.Heartbeat? || m.Snap?) && !role.Leader? ==> m.term == term && !LogFatal(View(), m)
      requires m.AppResp? || m.HeartbeatResp? ==> m.from != id
      requires m.AppResp? && !m.reject && role.Leader? ==> m.index <= |full|
      modifies this, log`committed, log.unstable
      ensures Valid() && Settles(m, old(log.committed), old(full)) && old(msgs) <= msgs
      ensures Dispatch(cfg, old(View()), m, View(), Since(msgs, |old(msgs)|))
      ensures old(role).Leader? && !m.Hup? && !m.Vote? && !m.PreVote? ==>
        log.TiersOk()
        && LeaderFlow(cfg.voters, old(View()), old(Books()), m, View(), Books(), msgs[|old(msgs)|..], log.Abs().base)
      ensures old(BooksOk()) ==> BooksOk()
      ensures role.Leader? ==> Steady()
    {
      hide LogSteady, LogOk, Matched, Granted, Refused, Bounded, ProgsOk, NodeSpec.StepLeader, NodeSpec.StepFollower,
        NodeSpec.StepCandidate, NodeSpec.StepHup, NodeSpec.HandleVote, LogFatal, WellSent, LeaderFlow;
      if m.Hup? {
        StepHup();
        SteadyIsValid();
      } else if m.Vote? || m.PreVote? {
        HandleVote(m);
        SteadyIsValid();
      } else {
        if m.App? || m.Heartbeat? || m.Snap? {
          FatalIgnoresRole(View(), m);
        }
        match role
        case Leader => StepLeader(m); TiersOfSteady(log, full); SteadyIsValid();
        case Follower => StepFollower(m, forward);
        case _ => StepCandidate(m);
      }
    }

    /**
     * raft.cpp:279-504. One step of the object is one step of its view, and a leader's flow control
     * does what LeaderFlow says. lease says whether the election timeout has not yet passed since a
     * leader was heard from: then, and only then, a request for votes is not even looked at.
     */
    method Step(m: Message, lease: bool, forward: bool)
      requires Steady() && CanStep(m)
      modifies this, log`committed, log.unstable
      ensures Valid() && Settles(m, old(log.committed), old(full)) && old(msgs) <= msgs
      ensures NodeSpec.Step(cfg, old(View()), m, View(), Since(msgs, |old(msgs)|))
      ensures
        if lease && InLease(cfg, old(View()), m) then View() == old(View()) && msgs == old(msgs)
        else Proceeds(cfg, old(View()), m, View(), Since(msgs, |old(msgs)|))
      ensures old(role).Leader? && (m.TermField() == 0 || m.TermField() == old(term)) && !m.Hup? && !m.Vote? && !m.PreVote? ==>
        log.TiersOk()
        && LeaderFlow(cfg.voters, old(View()), old(Books()), m, View(), Books(), msgs[|old(msgs)|..], log.Abs().base)
      ensures old(BooksOk()) ==> BooksOk()
      ensures role.Leader? ==> Steady()
    {
      hide LogSteady, LogOk, Matched, Granted, Refused, Bounded, ProgsOk, Dispatch, LogFatal, WellSent, LeaderFlow;
      StepReady(m);
      var done := CompareTerms(m, lease);
      if done {
        SteadyIsValid();
      } else {
        Handle(m, forward);
      }
    }

    lemma StepReady(m: Message)
      requires Steady() && CanStep(m)
      ensures WellSent(m) && (m.AppResp? || m.HeartbeatResp? ==> m.from != id)
      ensures var n := CatchUp(View(), m);
        m.TermField() == 0 || m.TermField() >= term ==>
          && ((m.App? || m.Heartbeat? || m.Snap?) && !n.role.Leader? ==> m.term == n.term && !LogFatal(n, m))
          && (m.AppResp? && !m.reject && n.role.Leader? ==> m.index <= |n.log|)
    {
      hide LogSteady, LogFatal, Matched;
    }
  }
}
