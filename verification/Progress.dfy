/** How the leader paces one follower (raft-kv/raft/progress.h, raft-kv/raft/progress.cpp). */
module Progress {
  import opened Proto
  import NodeSpec

  // ---------------------------------------------------------------- the window of messages in flight

  ghost predicate Ascending(items: seq<nat>) {
    forall i, j | 0 <= i < j < |items| :: items[i] < items[j]
  }

  /** Drop from the front everything up to x. */
  function FreeTo(items: seq<nat>, x: nat): (rest: seq<nat>)
    ensures |rest| <= |items|
  {
    if items == [] || x < items[0] then items else FreeTo(items[1..], x)
  }

  lemma FreeToStep(items: seq<nat>, x: nat)
    ensures FreeTo(items, x) == if items == [] || x < items[0] then items else FreeTo(items[1..], x)
  {
  }

  /** In an ascending window exactly the items beyond x stay. */
  lemma {:induction false} FreeToKeeps(items: seq<nat>, x: nat)
    requires Ascending(items)
    ensures Ascending(FreeTo(items, x))
    ensures var freed := |items| - |FreeTo(items, x)|;
      && FreeTo(items, x) == items[freed..]
      && (forall i | 0 <= i < freed :: items[i] <= x)
      && (forall i | freed <= i < |items| :: items[i] > x)
  {
    if items != [] && x >= items[0] {
      var rest := items[1..];
      assert forall i | 0 <= i < |rest| :: rest[i] == items[i + 1];
      FreeToKeeps(rest, x);
      FreeToStep(items, x);
      hide FreeTo;
      var freed := |rest| - |FreeTo(rest, x)| + 1;
      assert items[freed..] == rest[freed - 1..];
      forall i | 0 <= i < |items| ensures if i < freed then items[i] <= x else items[i] > x {
        if i > 0 {
          assert rest[i - 1] == items[i];
        }
      }
    }
  }

  /** Freeing the first item frees that one only. */
  lemma FreeFirst(items: seq<nat>)
    requires Ascending(items) && items != []
    ensures FreeTo(items, items[0]) == items[1..]
  {
  }

  /**
   * The ring buffer. It grows only when it has to, and it wraps at size, so it must have reached
   * its full size before the window wraps.
   */
  class InFlights {
    const size: nat
    var start: nat
    var count: nat
    var buffer: seq<nat>

    ghost predicate Valid()
      reads this
    {
      && count <= size && |buffer| <= size
      && (start < size || start == 0)
      && (start + count <= |buffer| || |buffer| == size)
      && (count == 0 ==> start == 0)
    }

    function Slot(i: nat): nat
      reads this
    {
      if start + i >= size then start + i - size else start + i
    }

    ghost function Items(): (s: seq<nat>)
      requires Valid()
      reads this
      ensures |s| == count
    {
      seq(count, i requires 0 <= i < count && Valid() reads this => buffer[Slot(i)])
    }

    constructor (size: nat)
      ensures Valid() && Items() == [] && this.size == size
    {
      this.size := size;
      start, count, buffer := 0, 0, [];
    }

    predicate IsFull()
      reads this
    {
      size == count
    }

    method Reset()
      requires Valid()
      modifies this`start, this`count
      ensures Valid() && Items() == []
    {
      start, count := 0, 0;
    }

    /** progress.cpp:23-44; adding to a full window throws. */
    method Add(inflight: nat)
      requires Valid() && !IsFull()
      modifies this`count, this`buffer
      ensures Valid() && Items() == old(Items()) + [inflight]
    {
      var next := start + count;
      if next >= size {
        next := next - size;
      }
      if next >= |buffer| {
        var newSize := |buffer| * 2;
        if newSize == 0 {
          newSize := 1;
        } else if newSize > size {
          newSize := size;
        }
        buffer := buffer + seq(newSize - |buffer|, _ => 0);
      }
      buffer := buffer[next := inflight];
      count := count + 1;
    }

    /** progress.cpp:46-74. */
    method FreeUpTo(x: nat)
      requires Valid()
      modifies this`start, this`count
      ensures Valid() && Items() == FreeTo(old(Items()), x)
    {
      hide FreeTo;
      ghost var items := Items();
      FreeToStep(items, x);
      if count == 0 || x < buffer[start] {
        return;
      }
      var idx := start;
      var i := 0;
      assert items[0..] == items;
      while i < count
        invariant 0 <= i <= count && unchanged(this)
        invariant i < count ==> idx == Slot(i)
        invariant i == count ==> idx < size
        invariant i < count ==> idx < |buffer|
        invariant FreeTo(items, x) == FreeTo(items[i..], x)
        invariant idx == (if start + i >= size then start + i - size else start + i)
      {
        assert items[i..][0] == buffer[idx];
        FreeToStep(items[i..], x);
        if x < buffer[idx] {
          break;
        }
        assert items[i..][1..] == items[i + 1..];
        idx := idx + 1;
        if idx >= size {
          idx := idx - size;
        }
        i := i + 1;
      }
      if i == count {
        FreeToStep(items[i..], x);
      }
      assert FreeTo(items, x) == items[i..];
      count := count - i;
      start := idx;
      if count == 0 {
        start := 0;
      }
      assert Items() == items[i..];
    }

    /** progress.cpp:76-78; the caller makes sure the window is full, hence not empty. */
    method FreeFirstOne()
      requires Valid() && count > 0
      modifies this`start, this`count
      ensures Valid() && Items() == FreeTo(old(Items()), old(Items())[0])
    {
      assert Items()[0] == buffer[start];
      FreeUpTo(buffer[start]);
    }
  }

  // ---------------------------------------------------------------- one follower's progress

  datatype Mode = Probe | Replicate | Snapshot

  datatype Prog = Prog(matched: nat, next: nat, mode: Mode, paused: bool, pending: nat, active: bool,
                       size: nat, items: seq<nat>) {

    /**
     * While replicating, the leader is ahead of what the follower has confirmed, and the window
     * lists, in order, messages that end strictly between the two.
     */
    ghost predicate Ok() {
      && next >= 1 && size >= 1 && |items| <= size
      && (mode.Replicate? ==>
            && matched < next
            && Ascending(items)
            && forall i | 0 <= i < |items| :: matched < items[i] < next)
      && (!mode.Replicate? ==> items == [])
    }

    predicate IsFull() { |items| == size }

    predicate IsPaused() {
      match mode
      case Probe => paused
      case Replicate => IsFull()
      case Snapshot => true
    }

    function ResetMode(m: Mode): Prog { this.(paused := false, pending := 0, mode := m, items := []) }

    function BecomeReplicate(): Prog { ResetMode(Replicate).(next := matched + 1) }

    function BecomeProbe(): Prog {
      ResetMode(Probe).(next := if mode.Snapshot? then Max(matched + 1, pending + 1) else matched + 1)
    }

    function BecomeSnapshot(index: nat): Prog { ResetMode(Snapshot).(pending := index) }

    /** maybe_update answers whether n is news. */
    function MaybeUpdate(n: nat): Prog {
      this.(matched := Max(matched, n), next := Max(next, n + 1), paused := paused && n <= matched)
    }

    predicate Rejects(rejected: nat) {
      if mode.Replicate? then rejected > matched else next == rejected + 1
    }

    /** maybe_decreases_to; a rejection that is not about the last probe is stale and ignored. */
    function MaybeDecreasesTo(rejected: nat, last: nat): Prog {
      if !Rejects(rejected) then this
      else if mode.Replicate? then this.(next := matched + 1)
      else this.(next := Max(1, Min(rejected, last + 1)), paused := false)
    }

    predicate NeedSnapshotAbort() { mode.Snapshot? && matched >= pending }

    // -------------------------------------------------------------- what the leader does with it

    /** An append of entries up to last has been sent (raft.cpp:1287-1304). */
    function Sent(last: nat): Prog
      requires mode.Replicate? || mode.Probe?
    {
      if mode.Replicate? then this.(next := last + 1, items := items + [last]) else this.(paused := true)
    }

    /** raft.cpp:624-640. */
    function Acked(n: nat): Prog {
      var p := MaybeUpdate(n);
      if n <= matched then p
      else if p.mode.Probe? then p.BecomeReplicate()
      else if p.NeedSnapshotAbort() then p.BecomeProbe()
      else if p.mode.Replicate? then p.(items := FreeTo(p.items, n))
      else p
    }

    /** raft.cpp:615-619. */
    function Rejected(rejected: nat, last: nat): Prog {
      var p := MaybeDecreasesTo(rejected, last);
      if Rejects(rejected) && p.mode.Replicate? then p.BecomeProbe() else p
    }

    /** raft.cpp:667-673: one slot is freed, so that a full window does not block for ever. */
    function HeartbeatAnswered(): Prog {
      var p := this.(active := true, paused := false);
      if p.mode.Replicate? && p.IsFull() && p.items != [] then p.(items := FreeTo(p.items, p.items[0])) else p
    }

    /** raft.cpp:704-727. */
    function SnapshotReported(failed: bool): Prog {
      if !mode.Snapshot? then this
      else if failed then this.(pending := 0).BecomeProbe().(paused := true)
      else BecomeProbe().(paused := true)
    }

    /** raft.cpp:728-733. */
    function Unreachable(): Prog { if mode.Replicate? then BecomeProbe() else this }
  }

  // ---------------------------------------------------------------- what each of these comes to

  /** A follower is not sent to: its probe is out, its window is full, or a snapshot is on its way. */
  lemma PausedMeans(p: Prog)
    ensures p.IsPaused() <==>
      p.mode.Snapshot? || (p.mode.Probe? && p.paused) || (p.mode.Replicate? && |p.items| == p.size)
  {
  }

  /** Probing starts anew at next, with an empty window. */
  predicate ProbesFrom(p: Prog, q: Prog, next: nat, paused: bool) {
    q == p.(mode := Probe, next := next, paused := paused, pending := 0, items := [])
  }

  /** After a snapshot has arrived probing goes on behind it, after one that has not where it was known to be before. */
  lemma ReportMeans(p: Prog, failed: bool)
    ensures p.mode.Snapshot? ==>
      ProbesFrom(p, p.SnapshotReported(failed), if failed then p.matched + 1 else Max(p.matched, p.pending) + 1, true)
    ensures !p.mode.Snapshot? ==> p.SnapshotReported(failed) == p
  {
  }

  /** An unreachable follower that was replicated to is probed from what it is known to hold. */
  lemma UnreachableMeans(p: Prog)
    ensures if p.mode.Replicate? then ProbesFrom(p, p.Unreachable(), p.matched + 1, false) else p.Unreachable() == p
  {
  }

  /** News ends a probe, and a snapshot that it reaches; it frees the window up to n, and never moves next back. */
  lemma AckedMeans(p: Prog, n: nat)
    requires p.Ok()
    ensures n <= p.matched ==> p.Acked(n) == p.(next := Max(p.next, n + 1))
    ensures n > p.matched && p.mode.Probe? ==>
      p.Acked(n) == p.(mode := Replicate, matched := n, next := n + 1, paused := false, pending := 0, items := [])
    ensures n > p.matched && p.mode.Snapshot? && n >= p.pending ==> ProbesFrom(p.(matched := n), p.Acked(n), n + 1, false)
    ensures n > p.matched && p.mode.Snapshot? && n < p.pending ==>
      p.Acked(n) == p.(matched := n, next := Max(p.next, n + 1), paused := false)
    ensures n > p.matched && p.mode.Replicate? ==>
      && var q := p.Acked(n);
         && q == p.(matched := n, next := Max(p.next, n + 1), paused := false, items := q.items)
         && |q.items| <= |p.items| && q.items == p.items[|p.items| - |q.items|..]
         && (forall i | 0 <= i < |p.items| - |q.items| :: p.items[i] <= n) && forall i | 0 <= i < |q.items| :: q.items[i] > n
  {
    if p.mode.Replicate? {
      FreeToKeeps(p.items, n);
    }
  }

  /** A rejection that is not out of date takes next back: to what is known, or below the probe and to the follower's end. */
  lemma RejectedMeans(p: Prog, rejected: nat, last: nat)
    requires p.Ok()
    ensures p.mode.Replicate? && rejected > p.matched ==> ProbesFrom(p, p.Rejected(rejected, last), p.matched + 1, false)
    ensures !p.mode.Replicate? && rejected == p.next - 1 ==>
      p.Rejected(rejected, last) == p.(next := Max(1, Min(rejected, last + 1)), paused := false)
    ensures (if p.mode.Replicate? then rejected <= p.matched else rejected != p.next - 1) ==> p.Rejected(rejected, last) == p
  {
  }

  lemma HeartbeatMeans(p: Prog)
    requires p.Ok()
    ensures p.HeartbeatAnswered() ==
      p.(active := true, paused := false, items := if p.mode.Replicate? && |p.items| == p.size then p.items[1..] else p.items)
  {
    if p.mode.Replicate? && |p.items| == p.size {
      FreeFirst(p.items);
    }
  }

  /** What has been sent is taken for received while replicating, and waited for while probing. */
  lemma SentMeans(p: Prog, last: nat)
    requires !p.mode.Snapshot?
    ensures p.Sent(last) == if p.mode.Replicate? then p.(next := last + 1, items := p.items + [last]) else p.(paused := true)
    ensures p.BecomeSnapshot(last) == p.(mode := Snapshot, paused := false, pending := last, items := [])
  {
  }

  /** Raft::reset and RawNode's start: a fresh probe (raft.cpp:1388-1398). */
  function FreshProg(matched: nat, next: nat, size: nat): Prog {
    Prog(matched, next, Probe, false, 0, false, size, [])
  }

  datatype Event =
    | Send(last: nat)
    | SendSnapshot(index: nat)
    | Ack(n: nat)
    | Reject(rejected: nat, last: nat)
    | HeartbeatAnswer
    | Report(failed: bool)
    | Lost

  /** The leader sends only when not paused, and then entries from next on. */
  predicate Enabled(p: Prog, e: Event) {
    match e
    case Send(last) => !p.IsPaused() && last >= p.next
    case SendSnapshot(_) => !p.IsPaused()
    case _ => true
  }

  function After(p: Prog, e: Event): Prog
    requires Enabled(p, e)
  {
    match e
    case Send(last) => p.Sent(last)
    case SendSnapshot(index) => p.BecomeSnapshot(index)
    case Ack(n) => p.Acked(n)
    case Reject(rejected, last) => p.Rejected(rejected, last)
    case HeartbeatAnswer => p.HeartbeatAnswered()
    case Report(failed) => p.SnapshotReported(failed)
    case Lost => p.Unreachable()
  }

  lemma SentKeeps(p: Prog, last: nat)
    requires p.Ok() && !p.IsPaused() && last >= p.next
    ensures p.Sent(last).Ok()
  {
  }

  lemma AckedKeeps(p: Prog, n: nat)
    requires p.Ok()
    ensures p.Acked(n).Ok() && p.Acked(n).matched == Max(p.matched, n)
  {
    if p.mode.Replicate? && n > p.matched {
      FreeToKeeps(p.items, n);
    }
  }

  lemma HeartbeatKeeps(p: Prog)
    requires p.Ok()
    ensures p.HeartbeatAnswered().Ok()
    ensures p.mode.Replicate? && p.IsFull() ==> p.HeartbeatAnswered().items == p.items[1..]
    ensures !p.mode.Snapshot? ==> !p.HeartbeatAnswered().IsPaused()
  {
    if p.mode.Replicate? && p.IsFull() {
      FreeToKeeps(p.items, p.items[0]);
      FreeFirst(p.items);
    }
  }

  lemma EventKeeps(p: Prog, e: Event)
    requires p.Ok() && Enabled(p, e)
    ensures After(p, e).Ok() && After(p, e).matched >= p.matched
  {
    match e
    case Send(last) => SentKeeps(p, last);
    case Ack(n) => AckedKeeps(p, n);
    case HeartbeatAnswer => HeartbeatKeeps(p);
    case _ =>
  }

  ghost predicate Follows(p: Prog, e: Event, p': Prog) { Enabled(p, e) && p' == After(p, e) }

  ghost predicate IsRun(states: seq<Prog>, events: seq<Event>) {
    && |states| == |events| + 1
    && (exists matched, next, size :: next >= 1 && size >= 1 && states[0] == FreshProg(matched, next, size))
    && forall i {:trigger events[i]} | 0 <= i < |events| :: Follows(states[i], events[i], states[i + 1])
  }

  /** In every state a leader can bring a follower's progress to, the window is in order. */
  lemma {:induction false} WindowInOrder(states: seq<Prog>, events: seq<Event>, k: nat)
    requires IsRun(states, events) && k < |states|
    ensures states[k].Ok()
  {
    if k > 0 {
      WindowInOrder(states, events, k - 1);
      EventKeeps(states[k - 1], events[k - 1]);
    }
  }

  // ---------------------------------------------------------------- where an append may start

  /** A leader whose own entries start behind start may probe at p: from the first, or for a rejection (SendWindow.LoweredTo). */
  ghost predicate MayStart(events: seq<Event>, k: nat, start: nat, p: nat) {
    || p >= start
    || exists i :: 0 <= i < k <= |events| && events[i].Reject? && (events[i].rejected <= p + 1 || events[i].last <= p)
  }

  /** Whatever is acknowledged is not below an append that was sent; and nobody is sent a snapshot. */
  ghost predicate Genuine(events: seq<Event>, start: nat) {
    forall k | 0 <= k < |events| ::
      && !events[k].SendSnapshot?
      && (events[k].Ack? && events[k].n > 0 ==> MayStart(events, k, start, events[k].n))
  }

  ghost predicate InWindow(p: Prog, events: seq<Event>, k: nat, start: nat) {
    && p.Ok() && !p.mode.Snapshot? && MayStart(events, k, start, p.next - 1)
    && (p.matched == 0 ==> p.mode.Probe? && p.next <= start + 1)
    && (p.matched > 0 ==> MayStart(events, k, start, p.matched))
  }

  /** This is why a leader's sends are those of SendWindow.InWindow. */
  lemma {:induction false} SendsInWindow(states: seq<Prog>, events: seq<Event>, k: nat, start: nat, size: nat)
    requires IsRun(states, events) && k < |states| && size >= 1 && states[0] == FreshProg(0, start + 1, size)
    requires Genuine(events, start)
    ensures InWindow(states[k], events, k, start)
  {
    if k > 0 {
      SendsInWindow(states, events, k - 1, start, size);
      EventKeeps(states[k - 1], events[k - 1]);
      var p, e := states[k - 1], events[k - 1];
      assert !e.SendSnapshot?;
      StartsOn(events, k - 1, start);
      if e.Reject? && p.Rejects(e.rejected) && p.mode.Probe? {
        assert events[k - 1].rejected <= After(p, e).next || events[k - 1].last <= After(p, e).next - 1;
      }
    }
  }

  lemma StartsOn(events: seq<Event>, k: nat, start: nat)
    requires k < |events|
    ensures forall p: nat, q: nat {:trigger MayStart(events, k, start, p), MayStart(events, k + 1, start, q)} | MayStart(events, k, start, p) && p <= q :: MayStart(events, k + 1, start, q)
  {
  }

  /** A rejection takes a probing leader below what is confirmed exactly when it is out of date. */
  lemma ProbeBelowMatch(p: Prog, rejected: nat, last: nat)
    requires p.Ok() && p.mode.Probe? && p.Rejects(rejected)
    ensures p.matched >= p.Rejected(rejected, last).next
      <==> p.matched > 0 && (rejected <= p.matched || last < p.matched)
  {
  }

  // ---------------------------------------------------------------- probing finds the common prefix

  /** The two logs have the same terms up to c, which both reach. */
  ghost predicate AgreeThrough(f: seq<Entry>, l: seq<Entry>, c: nat) {
    c <= |f| && c <= |l| && forall i: nat | i <= c :: NodeSpec.TermAt(f, i) == NodeSpec.TermAt(l, i)
  }

  /** What a probing leader with this progress sends. */
  ghost predicate IsProbe(p: Prog, l: seq<Entry>, m: Message) {
    m.App? && p.next >= 1 && m.index == p.next - 1 && m.logTerm == NodeSpec.TermAt(l, m.index)
  }

  /** The follower turns probe m down, and says where its own log ends. */
  ghost predicate TurnsDown(n: NodeSpec.Node, m: Message, rejected: nat, last: nat) {
    && m.App?
    && NodeSpec.HandleAppend(n, m).1 == {AppResp(n.id, m.from, n.term, rejected, true, last)}
  }

  /** A genuine rejection strictly lowers next, but not below the first entry they may differ in. */
  lemma RejectionProgress(p: Prog, l: seq<Entry>, n: NodeSpec.Node, m: Message, rejected: nat, last: nat, c: nat)
    requires p.Ok() && p.mode.Probe? && IsProbe(p, l, m) && TurnsDown(n, m, rejected, last)
    requires AgreeThrough(n.log, l, c)
    ensures var p' := p.Rejected(rejected, last);
      p'.Ok() && p'.mode.Probe? && !p'.IsPaused() && c + 1 <= p'.next < p.next
  {
    TurnedDownMeans(n, m, rejected, last);
  }

  lemma SameSingleton(a: Message, b: Message)
    requires {a} == {b}
    ensures a == b
  {
    assert a in {b};
  }

  lemma TurnedDownMeans(n: NodeSpec.Node, m: Message, rejected: nat, last: nat)
    requires TurnsDown(n, m, rejected, last)
    ensures m.index >= n.commit && !NodeSpec.Accepts(n, m)
    ensures rejected == m.index && last == |n.log|
  {
    var no := AppResp(n.id, m.from, n.term, rejected, true, last);
    if m.index < n.commit {
      SameSingleton(NodeSpec.Ack(n, m.from, n.commit), no);
    } else if NodeSpec.Accepts(n, m) {
      SameSingleton(NodeSpec.Ack(n, m.from, m.index + |m.entries|), no);
    } else {
      SameSingleton(AppResp(n.id, m.from, n.term, m.index, true, |n.log|), no);
    }
  }

  /** One round of probing: the leader's progress and log, the follower, its answer. */
  datatype Round = Round(p: Prog, leader: seq<Entry>, follower: NodeSpec.Node, probe: Message, rejected: nat, last: nat)

  ghost predicate IsRejected(r: Round, c: nat) {
    && r.p.Ok() && r.p.mode.Probe? && IsProbe(r.p, r.leader, r.probe)
    && TurnsDown(r.follower, r.probe, r.rejected, r.last)
    && AgreeThrough(r.follower.log, r.leader, c)
  }

  /** Consecutive rejected probes; either log may change meanwhile as long as they agree through c. */
  ghost predicate AreRejections(rounds: seq<Round>, c: nat) {
    && (forall i | 0 <= i < |rounds| :: IsRejected(rounds[i], c))
    && (forall i {:trigger rounds[i].p} | 1 <= i < |rounds| ::
          rounds[i].p.next == rounds[i - 1].p.Rejected(rounds[i - 1].rejected, rounds[i - 1].last).next)
  }

  /** At most next - 1 - c probes are turned down before one is accepted. */
  lemma {:induction false} ProbingConverges(rounds: seq<Round>, c: nat)
    requires AreRejections(rounds, c) && rounds != []
    ensures |rounds| <= rounds[0].p.next - 1 - c
    decreases |rounds|
  {
    var first := rounds[0];
    RejectionProgress(first.p, first.leader, first.follower, first.probe, first.rejected, first.last, c);
    if |rounds| > 1 {
      var rest := rounds[1..];
      assert rest[0] == rounds[1];
      forall i | 1 <= i < |rest|
        ensures rest[i].p.next == rest[i - 1].p.Rejected(rest[i - 1].rejected, rest[i - 1].last).next {
        assert rest[i] == rounds[i + 1] && rest[i - 1] == rounds[i];
        assert rounds[i + 1].p.next == rounds[i].p.Rejected(rounds[i].rejected, rounds[i].last).next;
      }
      assert forall i | 0 <= i < |rest| :: rest[i] == rounds[i + 1];
      ProbingConverges(rest, c);
    }
  }

  /** And the probe right behind the common prefix is accepted, unless it is below the commit index. */
  lemma ProbeAtPrefixIsAccepted(p: Prog, l: seq<Entry>, n: NodeSpec.Node, m: Message, c: nat)
    requires IsProbe(p, l, m) && p.next == c + 1 && AgreeThrough(n.log, l, c)
    ensures !m.App? || m.index < n.commit || NodeSpec.Accepts(n, m)
    ensures !exists rejected, last :: TurnsDown(n, m, rejected, last)
  {
    assert NodeSpec.TermAt(n.log, c) == NodeSpec.TermAt(l, c);
    forall rejected, last ensures !TurnsDown(n, m, rejected, last) {
      if TurnsDown(n, m, rejected, last) {
        TurnedDownMeans(n, m, rejected, last);
      }
    }
  }

  // ---------------------------------------------------------------- the object

  /** The record the source updates in place; its value is a Prog at any time. */
  class Progress {
    var matched: nat
    var next: nat
    var mode: Mode
    var paused: bool
    var pending: nat
    var active: bool
    const inflights: InFlights

    ghost predicate Valid()
      reads this, inflights
    {
      inflights.Valid()
    }

    ghost function Value(): Prog
      requires Valid()
      reads this, inflights
    {
      Prog(matched, next, mode, paused, pending, active, inflights.size, inflights.Items())
    }

    constructor (size: nat)
      ensures Valid() && fresh(inflights) && Value() == FreshProg(0, 0, size)
    {
      matched, next, mode, paused, pending, active := 0, 0, Probe, false, 0, false;
      inflights := new InFlights(size);
    }

    method ResetMode(m: Mode)
      requires Valid()
      modifies this, inflights
      ensures Valid() && Value() == old(Value()).ResetMode(m)
    {
      paused := false;
      pending := 0;
      mode := m;
      inflights.Reset();
    }

    method BecomeReplicate()
      requires Valid()
      modifies this, inflights
      ensures Valid() && Value() == old(Value()).BecomeReplicate()
    {
      ResetMode(Replicate);
      next := matched + 1;
    }

    method BecomeProbe()
      requires Valid()
      modifies this, inflights
      ensures Valid() && Value() == old(Value()).BecomeProbe()
    {
      if mode == Snapshot {
        var was := pending;
        ResetMode(Probe);
        next := Max(matched + 1, was + 1);
      } else {
        ResetMode(Probe);
        next := matched + 1;
      }
    }

    method BecomeSnapshot(index: nat)
      requires Valid()
      modifies this, inflights
      ensures Valid() && Value() == old(Value()).BecomeSnapshot(index)
    {
      ResetMode(Snapshot);
      pending := index;
    }

    method IsPaused() returns (b: bool)
      requires Valid()
      ensures b == Value().IsPaused()
    {
      match mode
      case Probe => b := paused;
      case Replicate => b := inflights.IsFull();
      case Snapshot => b := true;
    }

    method MaybeUpdate(n: nat) returns (updated: bool)
      requires Valid()
      modifies this`matched, this`next, this`paused
      ensures Valid() && Value() == old(Value()).MaybeUpdate(n)
      ensures updated == (n > old(matched))
    {
      updated := false;
      if matched < n {
        matched := n;
        updated := true;
        paused := false;
      }
      if next < n + 1 {
        next := n + 1;
      }
    }

    method MaybeDecreasesTo(rejected: nat, last: nat) returns (decreased: bool)
      requires Valid() && next >= 1
      modifies this`next, this`paused
      ensures Valid() && Value() == old(Value()).MaybeDecreasesTo(rejected, last)
      ensures decreased == old(Value()).Rejects(rejected)
    {
      if mode == Replicate {
        if rejected <= matched {
          return false;
        }
        next := matched + 1;
        return true;
      }
      if next - 1 != rejected {
        return false;
      }
      next := Min(rejected, last + 1);
      if next < 1 {
        next := 1;
      }
      paused := false;
      return true;
    }

    method OptimisticUpdate(n: nat)
      modifies this`next
      ensures next == n + 1
    {
      next := n + 1;
    }

    /** The bookkeeping of maybe_send_append for a message that ends at last. */
    method Sent(last: nat)
      requires Valid() && Value().Ok() && !Value().IsPaused() && last >= next
      modifies this`next, this`paused, inflights
      ensures Valid() && Value() == old(Value()).Sent(last) && Value().Ok()
    {
      SentKeeps(Value(), last);
      if mode == Replicate {
        OptimisticUpdate(last);
        inflights.Add(last);
      } else {
        paused := true;
      }
    }

    /** raft.cpp:624-640. */
    method Acked(n: nat) returns (updated: bool)
      requires Valid() && Value().Ok()
      modifies this, inflights
      ensures Valid() && Value() == old(Value()).Acked(n) && Value().Ok()
      ensures updated == (n > old(matched))
    {
      AckedKeeps(Value(), n);
      updated := MaybeUpdate(n);
      if updated {
        if mode == Probe {
          BecomeReplicate();
        } else if mode == Snapshot && matched >= pending {
          BecomeProbe();
        } else if mode == Replicate {
          inflights.FreeUpTo(n);
        }
      }
    }

    /** raft.cpp:667-673. */
    method HeartbeatAnswered()
      requires Valid() && Value().Ok()
      modifies this`active, this`paused, inflights
      ensures Valid() && Value() == old(Value()).HeartbeatAnswered() && Value().Ok()
    {
      HeartbeatKeeps(Value());
      active := true;
      paused := false;
      if mode == Replicate && inflights.IsFull() {
        inflights.FreeFirstOne();
      }
    }
  }
}
