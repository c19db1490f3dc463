/**
 * What a node gets back from its write-ahead log after a crash (raft-kv/wal/wal.cpp:165-308,
 * raft-kv/server/raft_node.cpp:204-240, raft-kv/raft/raft.cpp:1166-1177).
 */
module WalReplay {
  import opened Proto
  import opened LogSpec
  import opened Storage
  import opened WalFormat
  import opened Wal
  import NodeSpec

  // ---------------------------------------------------------------- replay and storage agree

  datatype Batch = Batch(hs: HardState, ents: seq<Entry>)

  function BatchRecords(c: Codec, batches: seq<Batch>): seq<Record> {
    if batches == [] then []
    else
      var b := batches[|batches| - 1];
      BatchRecords(c, batches[..|batches| - 1]) + SaveRecords(c, b.hs, b.ents)
  }

  /** Each batch starts no later than right behind the last entry. */
  ghost predicate Fits(log: Log, ents: seq<Entry>) {
    ents != [] ==> Numbered(ents, ents[0].index) && ents[0].index <= log.Last() + 1
  }

  /** MemoryStorage::append of all batches in turn, on a storage that starts at the snapshot. */
  function Stored(start: Mark, batches: seq<Batch>): Log {
    if batches == [] then Log(start.index, start.term, [])
    else
      var log := Stored(start, batches[..|batches| - 1]);
      var ents := batches[|batches| - 1].ents;
      // append throws on a gap; GapFree rules that out
      if ents == [] || ents[0].index <= log.Last() + 1 then log.Overwrite(ents) else log
  }

  ghost predicate GapFree(start: Mark, batches: seq<Batch>) {
    forall k {:trigger batches[k]} | 0 <= k < |batches| :: Fits(Stored(start, batches[..k]), batches[k].ents)
  }

  /** Replaying what a batch wrote does what appending the batch does. */
  lemma {:induction false} ReplayBatch(c: Codec, start: Mark, rs: seq<Record>, log: Log, ents: seq<Entry>)
    requires c.Valid() && log.Valid() && Fits(log, ents)
    requires var s := Replay(c, start, rs);
      !s.fatal && log == Log(start.index, start.term, s.ents)
    ensures var s := Replay(c, start, rs + EntryRecords(c, ents));
      && !s.fatal && s.hs == Replay(c, start, rs).hs
      && log.Overwrite(ents).Valid() && log.Overwrite(ents) == Log(start.index, start.term, s.ents)
    decreases |ents|
  {
    hide Replay, EntryRecords;
    EntryRecordsUnfold(c, ents);
    if ents == [] {
      assert rs + [] == rs;
    } else {
      var n := |ents| - 1;
      var e := ents[n];
      ReplayBatch(c, start, rs, log, ents[..n]);
      var sofar := rs + EntryRecords(c, ents[..n]);
      assert rs + EntryRecords(c, ents) == sofar + [Record(ENTRY, c.packEntry(e))];
      ReplayOneMore(c, start, sofar, Record(ENTRY, c.packEntry(e)));
      OverwriteStep(log, ents);
    }
  }

  lemma EntryRecordsUnfold(c: Codec, ents: seq<Entry>)
    ensures ents == [] ==> EntryRecords(c, ents) == []
    ensures ents != [] ==>
      EntryRecords(c, ents) == EntryRecords(c, ents[..|ents| - 1]) + [Record(ENTRY, c.packEntry(ents[|ents| - 1]))]
  {
  }

  /** Overwriting with one entry more. */
  lemma OverwriteStep(log: Log, ents: seq<Entry>)
    requires log.Valid() && ents != [] && Fits(log, ents)
    ensures var n := |ents| - 1;
      var before := log.Overwrite(ents[..n]);
      var e := ents[n];
      && (e.index <= log.base ==> log.Overwrite(ents) == before)
      && (e.index > log.base ==>
            && e.index - log.base - 1 <= |before.entries|
            && log.Overwrite(ents).Valid()
            && log.Overwrite(ents) == before.(entries := before.entries[..e.index - log.base - 1] + [e]))
  {
    var n := |ents| - 1;
    var e := ents[n];
    assert e.index == ents[0].index + n;
    if n == 0 {
      assert ents == [e];
      if e.index > log.base {
        AppendAt(log, ents, 0);
      }
    } else if e.index > log.base {
      var shorter := ents[..n];
      assert shorter[0] == ents[0];
      OverwriteAt(log, ents, 0);
      hide Numbered;
      if ents[0].index <= log.base {
        var k := log.base + 1 - ents[0].index;
        assert ents[k..] == shorter[k..] + [e];
      } else {
        assert log.Append(ents).entries == log.entries[..ents[0].index - log.base - 1] + (shorter + [e]);
      }
    }
  }

  /**
   * Replay agrees with storage: for every gap-free history of saves, the entries read back are
   * those of a storage that was handed the same batches.
   */
  lemma {:induction false} ReplayIsStorage(c: Codec, start: Mark, batches: seq<Batch>)
    requires c.Valid() && GapFree(start, batches)
    ensures var s := Replay(c, start, BatchRecords(c, batches));
      && !s.fatal
      && Stored(start, batches).Valid()
      && Stored(start, batches) == Log(start.index, start.term, s.ents)
    decreases |batches|
  {
    hide Replay, SaveRecords, EntryRecords;
    if batches == [] {
      ReplayNothing(c, start);
    } else {
      var n := |batches| - 1;
      var b := batches[n];
      forall k | 0 <= k < n ensures Fits(Stored(start, batches[..n][..k]), batches[..n][k].ents) {
        assert batches[..n][..k] == batches[..k] && batches[k] == batches[..n][k];
      }
      ReplayIsStorage(c, start, batches[..n]);
      var rs := BatchRecords(c, batches[..n]);
      ReplayBatch(c, start, rs, Stored(start, batches[..n]), b.ents);
      ReplayState(c, start, rs + EntryRecords(c, b.ents), b.hs);
      SaveRecordsAre(c, b.hs, b.ents);
      assert rs + SaveRecords(c, b.hs, b.ents) == rs + EntryRecords(c, b.ents) + StateRecords(c, b.hs);
    }
  }

  lemma SaveRecordsAre(c: Codec, hs: HardState, ents: seq<Entry>)
    ensures SaveRecords(c, hs, ents) == EntryRecords(c, ents) + StateRecords(c, hs)
  {
  }

  lemma ReplayState(c: Codec, start: Mark, rs: seq<Record>, hs: HardState)
    requires c.Valid() && !Replay(c, start, rs).fatal
    ensures var s, s' := Replay(c, start, rs), Replay(c, start, rs + StateRecords(c, hs));
      s' == s.(hs := if hs == EMPTY_STATE then s.hs else hs)
  {
    hide Replay;
    if hs == EMPTY_STATE {
      assert rs + StateRecords(c, hs) == rs;
    } else {
      ReplayOneMore(c, start, rs, Record(STATE, c.packState(hs)));
    }
  }

  // ---------------------------------------------------------------- the node and its log file

  /**
   * One record, as the node writes them in the course of its life. A snapshot received from a
   * leader takes two: the hard state that commits it (Ahead), then its mark (Received); both are
   * read back as any hard state and any mark. prefix is the log the snapshot stands for.
   */
  datatype Step =
    | Put(e: Entry)
    | State(hs: HardState)
    | Marked(m: Mark)
    | Ahead(hs: HardState)
    | Received(m: Mark, prefix: seq<Entry>)
  {
    predicate IsMark() { Marked? || Received? }

    /** Steps after which the node's log ends somewhere else. */
    predicate Touches() { Put? || Received? }
  }

  /**
   * What the node itself held: its log from the first entry on, its hard state, how much of the log
   * is committed, and its newest mark.
   */
  datatype Memory = Memory(log: seq<Entry>, hs: HardState, safe: nat, marked: nat) {
    /** A snapshot is committed whose mark is still to be written. */
    predicate Waiting() { safe < hs.commit }

    ghost predicate Ok() {
      marked <= safe <= |log| && safe <= hs.commit && Numbered(log, 1)
    }
  }

  function RecordOf(c: Codec, s: Step): Record {
    match s
    case Put(e) => Record(ENTRY, c.packEntry(e))
    case State(hs) => Record(STATE, c.packState(hs))
    case Ahead(hs) => Record(STATE, c.packState(hs))
    case Marked(m) => Record(SNAPSHOT, c.packMark(m))
    case Received(m, _) => Record(SNAPSHOT, c.packMark(m))
  }

  function RecordsOf(c: Codec, steps: seq<Step>): (rs: seq<Record>)
    ensures |rs| == |steps|
    ensures forall i | 0 <= i < |steps| :: rs[i] == RecordOf(c, steps[i])
  {
    if steps == [] then [] else RecordsOf(c, steps[..|steps| - 1]) + [RecordOf(c, steps[|steps| - 1])]
  }

  function After(m: Memory, s: Step): Memory {
    match s
    case Put(e) => if 1 <= e.index <= |m.log| + 1 then m.(log := m.log[..e.index - 1] + [e]) else m
    case State(hs) => m.(hs := hs, safe := hs.commit)
    case Ahead(hs) => m.(hs := hs)
    case Marked(mark) => m.(marked := mark.index)
    case Received(mark, prefix) => Memory(prefix, m.hs, mark.index, mark.index)
  }

  /**
   * A node never replaces a committed entry, never commits what it has not saved unless a snapshot
   * of it has come, marks only newer snapshots of what it has committed, and takes a snapshot only
   * if its log does not hold what it stands for; such a snapshot contradicts nothing committed.
   */
  ghost predicate Legal(m: Memory, s: Step) {
    match s
    case Put(e) => !m.Waiting() && m.safe < e.index <= |m.log| + 1
    case State(hs) => !m.Waiting() && hs != EMPTY_STATE && m.safe <= hs.commit <= |m.log|
    case Ahead(hs) => !m.Waiting() && m.safe < hs.commit
    case Marked(mark) =>
      !m.Waiting() && m.marked < mark.index <= m.safe && mark.term == NodeSpec.TermAt(m.log, mark.index)
    case Received(mark, prefix) =>
      && m.Waiting() && mark.index == m.hs.commit == |prefix| && Numbered(prefix, 1)
      && mark.term == NodeSpec.TermAt(prefix, mark.index) != NodeSpec.TermAt(m.log, mark.index)
      && m.safe <= |m.log| && prefix[..m.safe] == m.log[..m.safe]
  }

  const BLANK := Memory([], EMPTY_STATE, 0, 0)

  function MemoryAfter(steps: seq<Step>): Memory {
    if steps == [] then BLANK
    else After(MemoryAfter(steps[..|steps| - 1]), steps[|steps| - 1])
  }

  /** The file starts with the mark of the empty snapshot (WAL::create). */
  ghost predicate IsHistory(steps: seq<Step>) {
    && |steps| > 0 && steps[0] == Marked(Mark(0, 0))
    && forall k {:trigger steps[k]} | 1 <= k < |steps| :: Legal(MemoryAfter(steps[..k]), steps[k])
  }

  lemma MemoryStep(steps: seq<Step>, k: nat)
    requires IsHistory(steps) && k < |steps|
    ensures k > 0 ==> Legal(MemoryAfter(steps[..k]), steps[k])
    ensures k == 0 ==> steps[k] == Marked(Mark(0, 0)) && MemoryAfter(steps[..k]) == BLANK
    ensures MemoryAfter(steps[..k + 1]) == After(MemoryAfter(steps[..k]), steps[k])
  {
    assert steps[..k + 1][..k] == steps[..k];
  }

  lemma LegalKeeps(m: Memory, s: Step)
    requires m.Ok() && (Legal(m, s) || (m == BLANK && s == Marked(Mark(0, 0))))
    ensures After(m, s).Ok()
    ensures m.safe <= After(m, s).safe && After(m, s).log[..m.safe] == m.log[..m.safe]
  {
  }

  /** What is committed stays, entry by entry. */
  lemma {:induction false} CommittedStays(steps: seq<Step>, j: nat, k: nat)
    requires IsHistory(steps) && j <= k <= |steps|
    ensures var m, m' := MemoryAfter(steps[..j]), MemoryAfter(steps[..k]);
      m.Ok() && m'.Ok() && m.safe <= m'.safe && m'.log[..m.safe] == m.log[..m.safe]
    decreases k
  {
    hide MemoryAfter, IsHistory, After, Legal;
    if k > 0 {
      MemoryStep(steps, k - 1);
      CommittedStays(steps, if j < k then j else k - 1, k - 1);
      var mid, m' := MemoryAfter(steps[..k - 1]), MemoryAfter(steps[..k]);
      LegalKeeps(mid, steps[k - 1]);
      if j < k {
        var m := MemoryAfter(steps[..j]);
        PrefixChain(m.log, mid.log, m'.log, m.safe, mid.safe);
      }
    } else {
      EmptyMemory(steps);
    }
  }

  lemma EmptyMemory(steps: seq<Step>)
    ensures MemoryAfter(steps[..0]) == BLANK
  {
  }

  lemma PrefixChain(a: seq<Entry>, b: seq<Entry>, c: seq<Entry>, i: nat, j: nat)
    requires i <= j && i <= |a| && j <= |b| && j <= |c|
    requires b[..i] == a[..i] && c[..j] == b[..j]
    ensures c[..i] == a[..i]
  {
    assert c[..i] == c[..j][..i] && b[..i] == b[..j][..i];
  }

  // ---------------------------------------------------------------- which snapshot the file is opened at

  ghost predicate NewestAt(steps: seq<Step>, k: nat, start: Mark, j: nat) {
    && j < k <= |steps| && steps[j].IsMark() && steps[j].m == start
    && forall q | j < q < k :: !steps[q].IsMark()
  }

  ghost predicate Newest(steps: seq<Step>, k: nat, start: Mark) {
    exists j: nat :: NewestAt(steps, k, start, j)
  }

  /**
   * start is the newest snapshot that a node finds if it stops after k records. A snapshot is put
   * into its own file right after its mark (save_snap, raft_node.cpp:136-157), so it is the one of the newest
   * mark, or the one before if that mark is the last record.
   */
  ghost predicate Opens(steps: seq<Step>, k: nat, start: Mark) {
    && k <= |steps|
    && (Newest(steps, k, start) || (k > 0 && steps[k - 1].IsMark() && Newest(steps, k - 1, start)))
  }

  /** The received snapshot whose mark is the last record is not there. */
  ghost predicate Late(steps: seq<Step>, k: nat, start: Mark) {
    0 < k <= |steps| && steps[k - 1].Received? && !Newest(steps, k, start)
  }

  /** The node is in the middle of taking a snapshot: it is committed, but not there. */
  ghost predicate Outstanding(steps: seq<Step>, k: nat, start: Mark) {
    (0 < k <= |steps| && steps[k - 1].Ahead?) || Late(steps, k, start)
  }

  /** Marks rise, and the memory keeps the last one. */
  lemma {:induction false} MarksRise(steps: seq<Step>, k: nat)
    requires IsHistory(steps) && k <= |steps|
    ensures forall q | 0 <= q < k && steps[q].IsMark() :: steps[q].m.index <= MemoryAfter(steps[..k]).marked
    ensures forall q, r | 0 <= q < r < k && steps[q].IsMark() && steps[r].IsMark() :: steps[q].m.index < steps[r].m.index
    ensures forall start: Mark | Newest(steps, k, start) :: start.index == MemoryAfter(steps[..k]).marked
    decreases k
  {
    hide MemoryAfter, IsHistory;
    if k > 0 {
      var n := k - 1;
      MarksRise(steps, n);
      MemoryStep(steps, n);
      CommittedStays(steps, n, n);
      var m := MemoryAfter(steps[..n]);
      assert steps[n].IsMark() && n > 0 ==> m.marked < steps[n].m.index;
      forall start: Mark | Newest(steps, k, start) ensures start.index == MemoryAfter(steps[..k]).marked {
        var j: nat :| NewestAt(steps, k, start, j);
        if j < n {
          assert NewestAt(steps, n, start, j);
        }
      }
    }
  }

  /** Nothing among the first k records is at odds with a file opened at start. */
  ghost predicate FileFits(steps: seq<Step>, k: nat, start: Mark) {
    forall q | 0 <= q < k <= |steps| && steps[q].IsMark() ::
      && (steps[q].m.index == start.index ==> steps[q].m.term == start.term)
      && (steps[q].Received? ==> steps[q].m.index <= start.index)
  }

  lemma OpensFits(steps: seq<Step>, k: nat, start: Mark)
    requires IsHistory(steps) && Opens(steps, k, start)
    ensures k > 0
    ensures FileFits(steps, if Late(steps, k, start) then k - 1 else k, start)
    ensures Late(steps, k, start) ==> steps[k - 1].m.index > start.index && Newest(steps, k - 1, start)
    ensures start.index <= MemoryAfter(steps[..if Late(steps, k, start) then k - 1 else k]).marked
  {
    hide MemoryAfter, IsHistory;
    MarksRise(steps, k);
    var n := if Newest(steps, k, start) then k else k - 1;
    MarksRise(steps, n);
    var j: nat :| NewestAt(steps, n, start, j);
    forall q | 0 <= q < k && q != j && steps[q].IsMark() && (steps[q].Received? || steps[q].m.index == start.index)
      ensures steps[q].m.index < start.index || (q == k - 1 && n < k && steps[q].m.index > start.index)
    {
      assert q < j || (q == k - 1 && n < k);
    }
    assert steps[j].m == start;
  }

  // ---------------------------------------------------------------- replay follows the node

  /** What replay knows after k records, of a file opened at the snapshot start. */
  ghost predicate Mirrors(s: Recovered, m: Memory, start: Mark) {
    && !s.fatal && s.hs == m.hs
    && Numbered(s.ents, start.index + 1) && Numbered(m.log, 1)
    && (|m.log| > start.index ==> s.ents == m.log[start.index..])
  }

  lemma MirrorStep(c: Codec, s: Recovered, m: Memory, start: Mark, step: Step)
    requires c.Valid() && Mirrors(s, m, start)
    requires Legal(m, step) || step == Marked(Mark(0, 0))
    requires step.IsMark() && step.m.index == start.index ==> step.m.term == start.term
    requires step.Received? ==> step.m.index <= start.index
    ensures Mirrors(HandleRecord(c, start, s, RecordOf(c, step)), After(m, step), start)
    ensures HandleRecord(c, start, s, RecordOf(c, step)).matched == (s.matched || step.IsMark())
  {
    hide Numbered, NodeSpec.TermAt;
    if step.Put? {
      MirrorPut(m.log, s.ents, start.index, step.e);
    }
  }

  lemma MirrorPut(log: seq<Entry>, ents: seq<Entry>, base: nat, e: Entry)
    requires Numbered(log, 1) && Numbered(ents, base + 1) && 1 <= e.index <= |log| + 1
    requires |log| > base ==> ents == log[base..]
    ensures var log' := log[..e.index - 1] + [e];
      && Numbered(log', 1) && |log'| == e.index
      && (e.index > base ==>
            && e.index - base - 1 <= |ents|
            && var ents' := ents[..e.index - base - 1] + [e];
               Numbered(ents', base + 1) && ents' == log'[base..])
  {
    var log' := log[..e.index - 1] + [e];
    if e.index > base + 1 {
      assert log'[base..] == log[base..][..e.index - base - 1] + [e];
    } else if e.index == base + 1 {
      assert log'[base..] == [e];
    }
  }

  lemma {:induction false} ReplayMirrors(c: Codec, steps: seq<Step>, start: Mark, k: nat)
    requires c.Valid() && IsHistory(steps) && k <= |steps| && FileFits(steps, k, start)
    ensures var s := Replay(c, start, RecordsOf(c, steps)[..k]);
      Mirrors(s, MemoryAfter(steps[..k]), start) && s.matched == (k > 0)
    decreases k
  {
    hide *;
    if k == 0 {
      MirrorStart(c, steps, start);
    } else {
      var n := k - 1;
      var s, m := Replay(c, start, RecordsOf(c, steps)[..n]), MemoryAfter(steps[..n]);
      FitsStep(steps, n, start);
      ReplayMirrors(c, steps, start, n);
      MemoryStep(steps, n);
      ReplayStep(c, steps, start, n);
      MirrorStep(c, s, m, start, steps[n]);
    }
  }

  lemma FitsStep(steps: seq<Step>, n: nat, start: Mark)
    requires IsHistory(steps) && n < |steps| && FileFits(steps, n + 1, start)
    ensures FileFits(steps, n, start)
    ensures steps[n].IsMark() && steps[n].m.index == start.index ==> steps[n].m.term == start.term
    ensures steps[n].Received? ==> steps[n].m.index <= start.index
    ensures n == 0 ==> steps[n].IsMark()
  {
  }

  lemma MirrorStart(c: Codec, steps: seq<Step>, start: Mark)
    ensures var s := Replay(c, start, RecordsOf(c, steps)[..0]);
      Mirrors(s, MemoryAfter(steps[..0]), start) && !s.matched && s.ents == []
  {
  }

  lemma ReplayStep(c: Codec, steps: seq<Step>, start: Mark, n: nat)
    requires n < |steps|
    ensures Replay(c, start, RecordsOf(c, steps)[..n + 1])
      == HandleRecord(c, start, Replay(c, start, RecordsOf(c, steps)[..n]), RecordOf(c, steps[n]))
  {
    hide Replay, HandleRecord, RecordOf;
    var rs := RecordsOf(c, steps);
    assert rs[..n + 1] == rs[..n] + [rs[n]];
    ReplayOneMore(c, start, rs[..n], rs[n]);
  }

  lemma MarkOnly(c: Codec, start: Mark, s: Recovered, step: Step)
    requires c.Valid() && !s.fatal && step.IsMark() && step.m.index != start.index
    ensures HandleRecord(c, start, s, RecordOf(c, step)) == s.(matched := true)
  {
  }

  /** The number of records that the node's log and what is read back have in common. */
  function Settled(steps: seq<Step>, k: nat, late: bool): nat {
    if late && k > 0 then k - 1 else k
  }

  /** Where reading the first k records ends up, in terms of the node that wrote them. */
  lemma Reopened(c: Codec, steps: seq<Step>, start: Mark, k: nat)
    requires c.Valid() && IsHistory(steps) && Opens(steps, k, start)
    ensures var s, m := Replay(c, start, RecordsOf(c, steps)[..k]), MemoryAfter(steps[..k]);
      && !s.fatal && s.matched && s.hs == m.hs && Numbered(s.ents, start.index + 1) && m.Ok()
    ensures var n := Settled(steps, k, Late(steps, k, start));
      var s, m := Replay(c, start, RecordsOf(c, steps)[..n]), MemoryAfter(steps[..n]);
      && FileFits(steps, n, start) && Mirrors(s, m, start) && m.Ok() && start.index <= m.safe
      && Replay(c, start, RecordsOf(c, steps)[..k]).ents == s.ents
    ensures Late(steps, k, start) ==>
      && Legal(MemoryAfter(steps[..k - 1]), steps[k - 1])
      && MemoryAfter(steps[..k]) == After(MemoryAfter(steps[..k - 1]), steps[k - 1])
      && start.index < steps[k - 1].m.index
  {
    hide Replay, MemoryAfter, IsHistory, HandleRecord, RecordOf, After, Legal, Newest;
    OpensFits(steps, k, start);
    var n := Settled(steps, k, Late(steps, k, start));
    ReplayMirrors(c, steps, start, n);
    CommittedStays(steps, n, k);
    if Late(steps, k, start) {
      MemoryStep(steps, n);
      ReplayStep(c, steps, start, n);
      MarkOnly(c, start, Replay(c, start, RecordsOf(c, steps)[..n]), steps[n]);
      LateIsLater(steps, n);
      ReceivedKeepsState(MemoryAfter(steps[..n]), steps[n]);
    }
  }

  lemma LateIsLater(steps: seq<Step>, n: nat)
    requires IsHistory(steps) && n < |steps| && steps[n].Received?
    ensures n > 0
  {
  }

  lemma ReceivedKeepsState(m: Memory, s: Step)
    requires s.Received?
    ensures After(m, s).hs == m.hs
  {
  }

  // ---------------------------------------------------------------- what is on file

  /**
   * Entry record e still stands beyond base among the first k records: none that is not skipped
   * was written at or below its index after it.
   */
  ghost predicate StandsAt(steps: seq<Step>, k: nat, base: nat, e: Entry, q: nat) {
    && q < k <= |steps| && steps[q] == Put(e) && e.index > base
    && forall r | q < r < k && steps[r].Put? :: steps[r].e.index <= base || steps[r].e.index > e.index
  }

  ghost predicate Stands(steps: seq<Step>, k: nat, base: nat, e: Entry) {
    exists q: nat :: StandsAt(steps, k, base, e, q)
  }

  lemma StandsStep(steps: seq<Step>, k: nat, base: nat, e: Entry)
    requires 0 < k <= |steps|
    ensures Stands(steps, k, base, e) <==>
      || (steps[k - 1] == Put(e) && e.index > base)
      || (Stands(steps, k - 1, base, e) && !(steps[k - 1].Put? && base < steps[k - 1].e.index <= e.index))
  {
    var n := k - 1;
    if steps[n] == Put(e) && e.index > base {
      assert StandsAt(steps, k, base, e, n);
    }
    if q: nat :| StandsAt(steps, n, base, e, q) && !(steps[n].Put? && base < steps[n].e.index <= e.index) {
      assert StandsAt(steps, k, base, e, q);
    }
    if q: nat :| StandsAt(steps, k, base, e, q) && q < n {
      assert StandsAt(steps, n, base, e, q);
    }
  }

  /** Entry e is where it belongs among entries that start behind base. */
  predicate Listed(ents: seq<Entry>, base: nat, e: Entry) {
    base < e.index <= base + |ents| && ents[e.index - base - 1] == e
  }

  lemma ListedStep(c: Codec, start: Mark, s: Recovered, step: Step, e: Entry)
    requires c.Valid() && !s.fatal && !HandleRecord(c, start, s, RecordOf(c, step)).fatal
    requires Numbered(s.ents, start.index + 1)
    ensures Listed(HandleRecord(c, start, s, RecordOf(c, step)).ents, start.index, e) <==>
      || (step == Put(e) && e.index > start.index)
      || (Listed(s.ents, start.index, e) && !(step.Put? && start.index < step.e.index <= e.index))
  {
  }

  /** What is read back are exactly the entry records that stand. */
  lemma {:induction false} ReadsWhatStands(c: Codec, steps: seq<Step>, start: Mark, k: nat, e: Entry)
    requires c.Valid() && IsHistory(steps) && k <= |steps| && FileFits(steps, k, start)
    ensures Listed(Replay(c, start, RecordsOf(c, steps)[..k]).ents, start.index, e) <==> Stands(steps, k, start.index, e)
    decreases k
  {
    hide *;
    if k == 0 {
      MirrorStart(c, steps, start);
      NothingListed(start.index, e);
      NothingStands(steps, start.index, e);
    } else {
      var n := k - 1;
      FitsStep(steps, n, start);
      ReadsWhatStands(c, steps, start, n, e);
      ReplayMirrors(c, steps, start, n);
      ReplayMirrors(c, steps, start, k);
      MirrorFacts(Replay(c, start, RecordsOf(c, steps)[..n]), MemoryAfter(steps[..n]), start);
      MirrorFacts(Replay(c, start, RecordsOf(c, steps)[..k]), MemoryAfter(steps[..k]), start);
      ReplayStep(c, steps, start, n);
      ListedStep(c, start, Replay(c, start, RecordsOf(c, steps)[..n]), steps[n], e);
      StandsStep(steps, k, start.index, e);
    }
  }

  lemma NothingListed(base: nat, e: Entry)
    ensures !Listed([], base, e)
  {
  }

  lemma NothingStands(steps: seq<Step>, base: nat, e: Entry)
    ensures !Stands(steps, 0, base, e)
  {
  }

  lemma MirrorFacts(s: Recovered, m: Memory, start: Mark)
    requires Mirrors(s, m, start)
    ensures !s.fatal && s.hs == m.hs && Numbered(s.ents, start.index + 1) && Numbered(m.log, 1)
    ensures |m.log| > start.index ==> s.ents == m.log[start.index..]
  {
  }

  // ---------------------------------------------------------------- whose log is read back

  /** The last record that moved the end of the node's log is an entry beyond index. */
  ghost predicate EndsBeyond(steps: seq<Step>, k: nat, index: nat) {
    exists q: nat :: EndsAt(steps, k, index, q)
  }

  ghost predicate EndsAt(steps: seq<Step>, k: nat, index: nat, q: nat) {
    && q < k <= |steps| && steps[q].Put? && steps[q].e.index > index
    && forall r | q < r < k :: !steps[r].Touches()
  }

  lemma EndsStep(steps: seq<Step>, k: nat, index: nat)
    requires 0 < k <= |steps|
    ensures EndsBeyond(steps, k, index) <==>
      if steps[k - 1].Touches() then steps[k - 1].Put? && steps[k - 1].e.index > index
      else EndsBeyond(steps, k - 1, index)
  {
    var n := k - 1;
    if steps[n].Put? && steps[n].e.index > index {
      assert EndsAt(steps, k, index, n);
    }
    if q: nat :| EndsAt(steps, n, index, q) && !steps[n].Touches() {
      assert EndsAt(steps, k, index, q);
    }
    if q: nat :| EndsAt(steps, k, index, q) && q < n {
      assert EndsAt(steps, n, index, q);
    }
  }

  lemma LengthStep(m: Memory, s: Step, index: nat)
    requires Legal(m, s) || (s == Marked(Mark(0, 0)) && m == BLANK)
    requires s.Received? ==> s.m.index <= index
    ensures |After(m, s).log| > index <==> if s.Touches() then s.Put? && s.e.index > index else |m.log| > index
  {
  }

  /** The node's log reaches beyond the snapshot exactly if it was last moved there. */
  lemma {:induction false} LogReaches(steps: seq<Step>, start: Mark, k: nat)
    requires IsHistory(steps) && k <= |steps| && FileFits(steps, k, start)
    ensures |MemoryAfter(steps[..k]).log| > start.index <==> EndsBeyond(steps, k, start.index)
    decreases k
  {
    hide *;
    if k == 0 {
      EmptyMemory(steps);
      NothingEnds(steps, start.index);
    } else {
      var n := k - 1;
      FitsStep(steps, n, start);
      LogReaches(steps, start, n);
      MemoryStep(steps, n);
      LengthStep(MemoryAfter(steps[..n]), steps[n], start.index);
      EndsStep(steps, k, start.index);
    }
  }

  lemma NothingEnds(steps: seq<Step>, index: nat)
    ensures !EndsBeyond(steps, 0, index) && |BLANK.log| <= index
  {
  }

  lemma ListedAll(a: seq<Entry>, b: seq<Entry>, base: nat)
    requires Numbered(a, base + 1) && Numbered(b, base + 1)
    ensures a == b <==> forall e :: Listed(a, base, e) <==> Listed(b, base, e)
  {
    if forall e :: Listed(a, base, e) <==> Listed(b, base, e) {
      if |a| > 0 {
        assert Listed(a, base, a[|a| - 1]);
      }
      if |b| > 0 {
        assert Listed(b, base, b[|b| - 1]);
      }
      forall i | 0 <= i < |a| ensures a[i] == b[i] {
        assert Listed(a, base, a[i]);
      }
    }
  }

  /** Whether an entry beyond the snapshot was ever written. */
  ghost predicate Beyond(steps: seq<Step>, k: nat, index: nat) {
    exists i :: 0 <= i < k <= |steps| && steps[i].Put? && steps[i].e.index > index
  }

  /** Replay is left with no entries exactly when none beyond the snapshot was written. */
  lemma {:induction false} EmptyMeansNone(c: Codec, steps: seq<Step>, start: Mark, k: nat)
    requires c.Valid() && IsHistory(steps) && k <= |steps| && FileFits(steps, k, start)
    ensures Replay(c, start, RecordsOf(c, steps)[..k]).ents == [] <==> !Beyond(steps, k, start.index)
    decreases k
  {
    hide *;
    if k == 0 {
      MirrorStart(c, steps, start);
      NothingBeyond(steps, start.index);
    } else {
      var n := k - 1;
      FitsStep(steps, n, start);
      EmptyMeansNone(c, steps, start, n);
      ReplayMirrors(c, steps, start, n);
      ReplayMirrors(c, steps, start, k);
      MirrorFacts(Replay(c, start, RecordsOf(c, steps)[..n]), MemoryAfter(steps[..n]), start);
      MirrorFacts(Replay(c, start, RecordsOf(c, steps)[..k]), MemoryAfter(steps[..k]), start);
      ReplayStep(c, steps, start, n);
      EntsStep(c, start, Replay(c, start, RecordsOf(c, steps)[..n]), steps[n]);
      BeyondStep(steps, k, start.index);
    }
  }

  lemma NothingBeyond(steps: seq<Step>, index: nat)
    ensures !Beyond(steps, 0, index)
  {
  }

  lemma EntsStep(c: Codec, start: Mark, s: Recovered, step: Step)
    requires c.Valid() && !HandleRecord(c, start, s, RecordOf(c, step)).fatal
    ensures HandleRecord(c, start, s, RecordOf(c, step)).ents == []
      <==> s.ents == [] && !(step.Put? && step.e.index > start.index)
  {
  }

  lemma BeyondStep(steps: seq<Step>, k: nat, index: nat)
    requires 0 < k <= |steps|
    ensures Beyond(steps, k, index) <==>
      Beyond(steps, k - 1, index) || (steps[k - 1].Put? && steps[k - 1].e.index > index)
  {
  }

  /** Unless the newest snapshot is missing, the case is decided by the last record that moved the log's end. */
  lemma OwnOrStale(c: Codec, steps: seq<Step>, start: Mark, n: nat)
    requires c.Valid() && IsHistory(steps) && n <= |steps| && FileFits(steps, n, start)
    requires start.index <= |MemoryAfter(steps[..n]).log|
    ensures var s, m := Replay(c, start, RecordsOf(c, steps)[..n]), MemoryAfter(steps[..n]);
      && (s.ents == m.log[start.index..] <==> EndsBeyond(steps, n, start.index) || !Beyond(steps, n, start.index))
      && (!Beyond(steps, n, start.index) ==> s.ents == [])
  {
    hide *;
    ReplayMirrors(c, steps, start, n);
    MirrorFacts(Replay(c, start, RecordsOf(c, steps)[..n]), MemoryAfter(steps[..n]), start);
    LogReaches(steps, start, n);
    EmptyMeansNone(c, steps, start, n);
  }

  /** In the usual case a snapshot that is not there cannot be made up for by what is on file. */
  lemma LateDiffers(m: Memory, s: Step, base: nat)
    requires Legal(m, s) && s.Received? && base < s.m.index && base <= |m.log|
    ensures After(m, s).log[base..] != m.log[base..] && After(m, s).log[base..] != []
  {
    var i := s.m.index;
    if |m.log| == i {
      assert s.prefix[base..][i - base - 1] == s.prefix[i - 1];
      assert m.log[base..][i - base - 1] == m.log[i - 1];
    }
  }

  lemma NotPutNotStanding(steps: seq<Step>, k: nat, base: nat, e: Entry)
    requires 0 < k <= |steps| && !steps[k - 1].Put?
    ensures Stands(steps, k, base, e) <==> Stands(steps, k - 1, base, e)
  {
    StandsStep(steps, k, base, e);
  }

  /** The entry records that stand beyond index are exactly these entries. */
  ghost predicate Standing(steps: seq<Step>, k: nat, index: nat, ents: seq<Entry>) {
    forall e :: Stands(steps, k, index, e) <==> Listed(ents, index, e)
  }

  /**
   * What is read back is the node's own log behind the snapshot, if and only if the last record that
   * moved the end of its log, an entry or the mark of a received snapshot, is an entry beyond the
   * snapshot, or no entry beyond it was ever written. Otherwise entries that the node had given up
   * come back, because replay skips the records up to the snapshot, and with them the cut they made.
   *
   * If the mark of a received snapshot is there and the snapshot is not, the older one is opened, and
   * the node's log is read back only if exactly the snapshot's entries happen to stand on file; never
   * if what stands is the log it replaced.
   */
  lemma RecoversOwnLog(c: Codec, steps: seq<Step>, start: Mark, k: nat)
    requires c.Valid() && IsHistory(steps) && Opens(steps, k, start)
    ensures var s, m := Replay(c, start, RecordsOf(c, steps)[..k]), MemoryAfter(steps[..k]);
      && !s.fatal && start.index <= |m.log|
      && (s.ents == m.log[start.index..] <==>
            if Late(steps, k, start) then Standing(steps, k, start.index, m.log[start.index..])
            else EndsBeyond(steps, k, start.index) || !Beyond(steps, k, start.index))
    ensures Late(steps, k, start) && (EndsBeyond(steps, k - 1, start.index) || !Beyond(steps, k - 1, start.index)) ==>
      Replay(c, start, RecordsOf(c, steps)[..k]).ents != MemoryAfter(steps[..k]).log[start.index..]
  {
    hide Replay, MemoryAfter, IsHistory, Beyond, EndsBeyond, Newest, Late, Legal, FileFits, Mirrors, Memory.Ok, After;
    Reopened(c, steps, start, k);
    var late := Late(steps, k, start);
    if late {
      LateIsReceived(steps, k, start);
    }
    var n := Settled(steps, k, late);
    var s, m := Replay(c, start, RecordsOf(c, steps)[..k]), MemoryAfter(steps[..k]);
    OkFacts(m);
    OkFacts(MemoryAfter(steps[..n]));
    OwnOrStale(c, steps, start, n);
    if late {
      LateLength(MemoryAfter(steps[..n]), steps[n]);
      LateDiffers(MemoryAfter(steps[..n]), steps[n], start.index);
      OnFile(c, steps, start, k, m.log[start.index..]);
    }
  }

  lemma OkFacts(m: Memory)
    requires m.Ok()
    ensures m.safe <= |m.log| && m.safe <= m.hs.commit && Numbered(m.log, 1)
  {
  }

  lemma LateLength(m: Memory, s: Step)
    requires Legal(m, s) && s.Received?
    ensures |After(m, s).log| == s.m.index == m.hs.commit && m.safe < m.hs.commit
  {
  }

  lemma OnFile(c: Codec, steps: seq<Step>, start: Mark, k: nat, ents: seq<Entry>)
    requires c.Valid() && IsHistory(steps) && Opens(steps, k, start) && Late(steps, k, start)
    requires Numbered(ents, start.index + 1)
    ensures Replay(c, start, RecordsOf(c, steps)[..k]).ents == ents <==> Standing(steps, k, start.index, ents)
  {
    Reopened(c, steps, start, k);
    var read := Replay(c, start, RecordsOf(c, steps)[..k]).ents;
    hide Replay, MemoryAfter, IsHistory, Opens, Legal, FileFits, Mirrors, Memory.Ok, After, Stands, Listed;
    forall e ensures Stands(steps, k, start.index, e) <==> Listed(read, start.index, e) {
      ReadsWhatStands(c, steps, start, k - 1, e);
      NotPutNotStanding(steps, k, start.index, e);
    }
    ListedAll(read, ents, start.index);
  }

  // ---------------------------------------------------------------- the commit index

  lemma {:induction false} WaitingMeansAhead(steps: seq<Step>, k: nat)
    requires IsHistory(steps) && k <= |steps|
    ensures MemoryAfter(steps[..k]).Waiting() <==> k > 0 && steps[k - 1].Ahead?
  {
    if k > 0 {
      MemoryStep(steps, k - 1);
      CommittedStays(steps, k - 1, k - 1);
    }
  }

  lemma ReachesOnFile(c: Codec, steps: seq<Step>, start: Mark, n: nat, commit: nat)
    requires c.Valid() && IsHistory(steps) && n <= |steps| && FileFits(steps, n, start) && start.index < commit
    ensures var s := Replay(c, start, RecordsOf(c, steps)[..n]);
      commit <= start.index + |s.ents| <==> exists e :: Stands(steps, n, start.index, e) && e.index >= commit
  {
    hide *;
    ReplayMirrors(c, steps, start, n);
    MirrorFacts(Replay(c, start, RecordsOf(c, steps)[..n]), MemoryAfter(steps[..n]), start);
    var ents := Replay(c, start, RecordsOf(c, steps)[..n]).ents;
    if commit <= start.index + |ents| {
      var e := ents[|ents| - 1];
      LastListed(ents, start.index);
      ReadsWhatStands(c, steps, start, n, e);
    }
    if e :| Stands(steps, n, start.index, e) && e.index >= commit {
      ReadsWhatStands(c, steps, start, n, e);
      ListedMeans(ents, start.index, e);
    }
  }

  lemma LastListed(ents: seq<Entry>, base: nat)
    requires ents != [] && Numbered(ents, base + 1)
    ensures var e := ents[|ents| - 1]; e.index == base + |ents| && Listed(ents, base, e)
  {
  }

  lemma ListedMeans(ents: seq<Entry>, base: nat, e: Entry)
    requires Listed(ents, base, e)
    ensures e.index <= base + |ents|
  {
  }

  /** Some entry record that stands reaches the index. */
  ghost predicate Reached(steps: seq<Step>, k: nat, base: nat, index: nat) {
    exists e :: Stands(steps, k, base, e) && e.index >= index
  }

  /**
   * load_state's demand: the commit index read back lies between the snapshot and the last entry read
   * back. It is met if and only if no received snapshot is outstanding, that is, its hard state is not
   * the last record and its mark is not there without it; or if old entries happen to reach that far.
   */
  lemma CommitInRange(c: Codec, steps: seq<Step>, start: Mark, k: nat)
    requires c.Valid() && IsHistory(steps) && Opens(steps, k, start)
    ensures var s := Replay(c, start, RecordsOf(c, steps)[..k]);
      && !s.fatal && s.matched
      && (start.index <= s.hs.commit <= start.index + |s.ents| <==>
            !Outstanding(steps, k, start) || Reached(steps, k, start.index, s.hs.commit))
  {
    hide Replay, MemoryAfter, IsHistory, Late, Newest, Legal, FileFits, Mirrors, Memory.Ok, After, Stands;
    Reopened(c, steps, start, k);
    var late := Late(steps, k, start);
    if late {
      LateIsReceived(steps, k, start);
    }
    var n := Settled(steps, k, late);
    var s, m := Replay(c, start, RecordsOf(c, steps)[..k]), MemoryAfter(steps[..n]);
    OkFacts(m);
    WaitingMeansAhead(steps, n);
    MirrorFacts(Replay(c, start, RecordsOf(c, steps)[..n]), m, start);
    if late {
      LateLength(m, steps[n]);
      ReceivedKeepsState(m, steps[n]);
      forall e ensures Stands(steps, k, start.index, e) <==> Stands(steps, n, start.index, e) {
        NotPutNotStanding(steps, k, start.index, e);
      }
      ReachesOnFile(c, steps, start, n, s.hs.commit);
    } else if m.Waiting() {
      ReachesOnFile(c, steps, start, n, s.hs.commit);
    }
  }

  lemma LateIsReceived(steps: seq<Step>, k: nat, start: Mark)
    requires Late(steps, k, start)
    ensures 0 < k <= |steps| && steps[k - 1].Received?
  {
  }

  // ---------------------------------------------------------------- what goes wrong

  /** One step more of a history. */
  lemma OneMoreStep(steps: seq<Step>, s: Step)
    requires IsHistory(steps) && Legal(MemoryAfter(steps), s)
    ensures IsHistory(steps + [s]) && MemoryAfter(steps + [s]) == After(MemoryAfter(steps), s)
  {
    hide Legal, After;
    var more := steps + [s];
    assert more[..|steps|] == steps;
    forall k | 1 <= k < |more| ensures Legal(MemoryAfter(more[..k]), more[k]) {
      if k < |steps| {
        assert more[..k] == steps[..k] && more[k] == steps[k];
      }
    }
  }

  lemma ReadOneMore(c: Codec, start: Mark, steps: seq<Step>, s: Step)
    ensures Replay(c, start, RecordsOf(c, steps + [s]))
      == HandleRecord(c, start, Replay(c, start, RecordsOf(c, steps)), RecordOf(c, s))
  {
    hide Replay, HandleRecord, RecordOf;
    assert (steps + [s])[..|steps|] == steps;
    ReplayOneMore(c, start, RecordsOf(c, steps), RecordOf(c, s));
  }

  lemma FirstStep(c: Codec, start: Mark)
    requires c.Valid() && (start.index == 0 ==> start.term == 0)
    ensures var steps := [Marked(Mark(0, 0))];
      && IsHistory(steps) && MemoryAfter(steps) == BLANK
      && Replay(c, start, RecordsOf(c, steps)) == NOTHING_YET.(matched := true)
  {
    var steps := [Marked(Mark(0, 0))];
    assert steps[..0] == [];
    ReadOneMore(c, start, [], Marked(Mark(0, 0)));
    assert [] + [Marked(Mark(0, 0))] == steps;
  }

  /** One more step of a history and of its being read back. */
  lemma Both(c: Codec, start: Mark, steps: seq<Step>, s: Step, m: Memory, r: Recovered)
    requires IsHistory(steps) && m == MemoryAfter(steps) && Legal(m, s) && r == Replay(c, start, RecordsOf(c, steps))
    ensures IsHistory(steps + [s]) && MemoryAfter(steps + [s]) == After(m, s)
    ensures Replay(c, start, RecordsOf(c, steps + [s])) == HandleRecord(c, start, r, RecordOf(c, s))
  {
    OneMoreStep(steps, s);
    ReadOneMore(c, start, steps, s);
  }

  /** Entries 1 to 3 of an old leader. */
  function OldLog(d: seq<Byte>): seq<Entry> {
    [Entry(Normal, 1, 1, d), Entry(Normal, 1, 2, d), Entry(Normal, 1, 3, d)]
  }

  function OldHistory(d: seq<Byte>): seq<Step> {
    [Marked(Mark(0, 0)), Put(Entry(Normal, 1, 1, d)), Put(Entry(Normal, 1, 2, d)), Put(Entry(Normal, 1, 3, d))]
  }

  /** The next entry goes onto the end of the log and, unless it is skipped, of what is read back. */
  lemma AddEntry(c: Codec, start: Mark, steps: seq<Step>, e: Entry, m: Memory, r: Recovered)
    requires c.Valid() && IsHistory(steps) && m == MemoryAfter(steps) && r == Replay(c, start, RecordsOf(c, steps)) && !r.fatal
    requires m.safe == m.hs.commit <= |m.log| && e.index == |m.log| + 1
    requires e.index > start.index ==> |r.ents| == e.index - start.index - 1
    ensures IsHistory(steps + [Put(e)]) && MemoryAfter(steps + [Put(e)]) == m.(log := m.log + [e])
    ensures Replay(c, start, RecordsOf(c, steps + [Put(e)]))
      == if e.index > start.index then r.(ents := r.ents + [e], last := e.index) else r.(last := e.index)
  {
    hide IsHistory, MemoryAfter, Replay, RecordsOf;
    Both(c, start, steps, Put(e), m, r);
    assert m.log[..|m.log|] == m.log && r.ents[..|r.ents|] == r.ents;
  }

  lemma OldIsHistory(c: Codec, start: Mark, d: seq<Byte>)
    requires c.Valid() && start.index <= 3 && (start.index == 0 ==> start.term == 0)
    ensures IsHistory(OldHistory(d)) && MemoryAfter(OldHistory(d)) == Memory(OldLog(d), EMPTY_STATE, 0, 0)
    ensures Replay(c, start, RecordsOf(c, OldHistory(d))) == Recovered(EMPTY_STATE, OldLog(d)[start.index..], true, 3, false)
  {
    hide IsHistory, MemoryAfter, Replay, RecordsOf, Legal;
    var h0, x, y, z := [Marked(Mark(0, 0))], OldLog(d)[0], OldLog(d)[1], OldLog(d)[2];
    FirstStep(c, start);
    AddEntry(c, start, h0, x, BLANK, NOTHING_YET.(matched := true));
    AddEntry(c, start, h0 + [Put(x)], y, MemoryAfter(h0 + [Put(x)]), Replay(c, start, RecordsOf(c, h0 + [Put(x)])));
    var h2 := h0 + [Put(x)] + [Put(y)];
    AddEntry(c, start, h2, z, MemoryAfter(h2), Replay(c, start, RecordsOf(c, h2)));
    assert h2 + [Put(z)] == OldHistory(d);
    assert [] + [x] + [y] + [z] == OldLog(d) && [] + [y] + [z] == OldLog(d)[1..] && [] + [z] == OldLog(d)[2..];
    assert OldLog(d)[0..] == OldLog(d) && OldLog(d)[3..] == [];
  }

  /** A leader of term 2 has replaced entry 1, and the node takes a snapshot of that. */
  function StaleHistory(d: seq<Byte>): seq<Step> {
    OldHistory(d) + [Put(Entry(Normal, 2, 1, d))] + [State(HardState(2, NONE, 1))] + [Marked(Mark(1, 2))]
  }

  /** After a restart it has entries 2 and 3 of the old leader again, behind an entry of a later term. */
  lemma StaleEntryComesBack(c: Codec, d: seq<Byte>)
    requires c.Valid()
    ensures IsHistory(StaleHistory(d)) && Newest(StaleHistory(d), |StaleHistory(d)|, Mark(1, 2))
    ensures var s, m := Replay(c, Mark(1, 2), RecordsOf(c, StaleHistory(d))), MemoryAfter(StaleHistory(d));
      && m.log == [Entry(Normal, 2, 1, d)]
      && s.ents == OldLog(d)[1..] && !s.fatal
  {
    var start, x, hs := Mark(1, 2), Entry(Normal, 2, 1, d), HardState(2, NONE, 1);
    assert NewestAt(StaleHistory(d), |StaleHistory(d)|, start, |StaleHistory(d)| - 1);
    OldIsHistory(c, start, d);
    hide IsHistory, MemoryAfter, Replay, RecordsOf;
    var h, m, r := OldHistory(d), Memory(OldLog(d), EMPTY_STATE, 0, 0), Recovered(EMPTY_STATE, OldLog(d)[1..], true, 3, false);
    hide Legal, After, HandleRecord;
    StaleSteps(c, x, hs, m, r);
    Both(c, start, h, Put(x), m, r);
    Both(c, start, h + [Put(x)], State(hs), m.(log := [x]), r.(last := 1));
    Both(c, start, h + [Put(x)] + [State(hs)], Marked(start), Memory([x], hs, 1, 0), r.(last := 1, hs := hs));
  }

  lemma StaleSteps(c: Codec, x: Entry, hs: HardState, m: Memory, r: Recovered)
    requires c.Valid() && !r.fatal && m.hs == EMPTY_STATE && m.safe == 0 && m.marked == 0
    requires x.index == 1 && x.term == 2 && hs == HardState(2, NONE, 1)
    ensures var start, m1, m2 := Mark(1, 2), m.(log := [x]), Memory([x], hs, 1, 0);
      && Legal(m, Put(x)) && After(m, Put(x)) == m1
      && Legal(m1, State(hs)) && After(m1, State(hs)) == m2
      && Legal(m2, Marked(start)) && After(m2, Marked(start)).log == [x]
      && HandleRecord(c, start, r, RecordOf(c, Put(x))) == r.(last := 1)
      && HandleRecord(c, start, r.(last := 1), RecordOf(c, State(hs))) == r.(last := 1, hs := hs)
      && HandleRecord(c, start, r.(last := 1, hs := hs), RecordOf(c, Marked(start))) == r.(last := 1, hs := hs, matched := true)
  {
  }

  /** A leader of term 2 whose first two entries are others, and its snapshot of them. */
  function NewPrefix(d: seq<Byte>): seq<Entry> {
    [Entry(Normal, 2, 1, d), Entry(Normal, 2, 2, d)]
  }

  function SnapshotHistory(d: seq<Byte>): seq<Step> {
    OldHistory(d) + [Ahead(HardState(2, NONE, 2))] + [Received(Mark(2, 2), NewPrefix(d))]
  }

  /** Entry 3 of the old leader outlives the snapshot that replaced the whole log. */
  lemma EntryOutlivesSnapshot(c: Codec, d: seq<Byte>)
    requires c.Valid()
    ensures IsHistory(SnapshotHistory(d)) && Newest(SnapshotHistory(d), |SnapshotHistory(d)|, Mark(2, 2))
    ensures var s, m := Replay(c, Mark(2, 2), RecordsOf(c, SnapshotHistory(d))), MemoryAfter(SnapshotHistory(d));
      && m.log == NewPrefix(d)
      && s.ents == [Entry(Normal, 1, 3, d)] && !s.fatal
  {
    var start, hs := Mark(2, 2), HardState(2, NONE, 2);
    assert NewestAt(SnapshotHistory(d), |SnapshotHistory(d)|, start, |SnapshotHistory(d)| - 1);
    OldIsHistory(c, start, d);
    hide IsHistory, MemoryAfter, Replay, RecordsOf;
    hide Legal, After, HandleRecord;
    var h, m, r := OldHistory(d), Memory(OldLog(d), EMPTY_STATE, 0, 0), Recovered(EMPTY_STATE, OldLog(d)[2..], true, 3, false);
    TakesSnapshot(c, d, m, r);
    Both(c, start, h, Ahead(hs), m, r);
    Both(c, start, h + [Ahead(hs)], Received(start, NewPrefix(d)), m.(hs := hs), r.(hs := hs));
    assert OldLog(d)[2..] == [Entry(Normal, 1, 3, d)];
  }

  lemma TakesSnapshot(c: Codec, d: seq<Byte>, m: Memory, r: Recovered)
    requires c.Valid() && m == Memory(OldLog(d), EMPTY_STATE, 0, 0) && !r.fatal
    ensures var hs, s := HardState(2, NONE, 2), Received(Mark(2, 2), NewPrefix(d));
      && Legal(m, Ahead(hs)) && After(m, Ahead(hs)) == m.(hs := hs)
      && Legal(m.(hs := hs), s) && After(m.(hs := hs), s).log == NewPrefix(d)
      && HandleRecord(c, Mark(2, 2), r, RecordOf(c, Ahead(hs))) == r.(hs := hs)
      && HandleRecord(c, Mark(2, 2), r.(hs := hs), RecordOf(c, s)) == r.(hs := hs, matched := true)
  {
    assert NewPrefix(d)[..0] == OldLog(d)[..0];
  }

  /** A crash in between: a commit index beyond the log, at which load_state throws. */
  lemma CommitWithoutSnapshot(c: Codec, e: Entry)
    requires c.Valid() && e.index == 1
    ensures var steps := [Marked(Mark(0, 0))] + [Put(e)] + [Ahead(HardState(2, NONE, 5))];
      && IsHistory(steps) && Opens(steps, |steps|, Mark(0, 0)) && Outstanding(steps, |steps|, Mark(0, 0))
      && var s := Replay(c, Mark(0, 0), RecordsOf(c, steps));
         s.hs.commit == 5 && s.ents == [e] && !s.fatal
  {
    var h0, start, hs := [Marked(Mark(0, 0))], Mark(0, 0), HardState(2, NONE, 5);
    assert NewestAt(h0 + [Put(e)] + [Ahead(hs)], 3, start, 0);
    FirstStep(c, start);
    hide IsHistory, MemoryAfter, Replay, RecordsOf;
    var r0 := NOTHING_YET.(matched := true);
    Both(c, start, h0, Put(e), BLANK, r0);
    Both(c, start, h0 + [Put(e)], Ahead(hs), After(BLANK, Put(e)), HandleRecord(c, start, r0, RecordOf(c, Put(e))));
  }

  /**
   * Worse, if the old log is long enough, nothing throws: the node comes back with entries for
   * committed that never were, while the snapshot that was committed holds others.
   */
  lemma OldEntriesTakenForCommitted(c: Codec, d: seq<Byte>)
    requires c.Valid()
    ensures var steps, hs := OldHistory(d), HardState(2, NONE, 2);
      && IsHistory(steps + [Ahead(hs)] + [Received(Mark(2, 2), NewPrefix(d))])
      && Opens(steps + [Ahead(hs)], |steps| + 1, Mark(0, 0))
      && var s := Replay(c, Mark(0, 0), RecordsOf(c, steps + [Ahead(hs)]));
         s.hs.commit == 2 && s.ents == OldLog(d) && !s.fatal && s.matched && s.ents[1].term != NewPrefix(d)[1].term
  {
    var start, hs := Mark(0, 0), HardState(2, NONE, 2);
    EntryOutlivesSnapshot(c, d);
    assert NewestAt(OldHistory(d) + [Ahead(hs)], |OldHistory(d)| + 1, start, 0);
    OldIsHistory(c, start, d);
    hide IsHistory, MemoryAfter, Replay, RecordsOf;
    var m, r := Memory(OldLog(d), EMPTY_STATE, 0, 0), Recovered(EMPTY_STATE, OldLog(d)[0..], true, 3, false);
    Both(c, start, OldHistory(d), Ahead(hs), m, r);
  }

  // ---------------------------------------------------------------- a crash, from the bytes up

  /**
   * Recovery after a crash: the file may be cut off at any byte, as long as the snapshot's mark is
   * there. What is read back is the hard state of the node after a prefix of its records, with
   * consecutive entries; the file is ready to be appended to; and load_state accepts it exactly under
   * the condition of CommitInRange.
   */
  lemma CrashRecovery(c: Codec, steps: seq<Step>, start: Mark, p: nat)
    requires c.Valid() && IsHistory(steps) && AllWritable(RecordsOf(c, steps))
    requires p <= |EncodeAll(c.crc, RecordsOf(c, steps))|
    requires Opens(steps, Whole(c.crc, RecordsOf(c, steps), p), start)
    ensures var k := Whole(c.crc, RecordsOf(c, steps), p);
      var data := EncodeAll(c.crc, RecordsOf(c, steps))[..p];
      var parsed := Parse(c.crc, data, 0);
      var s := Replay(c, start, parsed.records);
      && parsed.records == RecordsOf(c, steps)[..k]
      && Trimmed(data, parsed.cut) == EncodeAll(c.crc, RecordsOf(c, steps)[..k])
      && s.hs == MemoryAfter(steps[..k]).hs
      && !s.fatal && s.matched && Numbered(s.ents, start.index + 1)
      && (start.index <= s.hs.commit <= start.index + |s.ents| <==>
            !Outstanding(steps, k, start) || Reached(steps, k, start.index, s.hs.commit))
  {
    hide Replay, MemoryAfter, Parse, Encode, EncodeAll, Trimmed, Whole, IsHistory, Newest, Outstanding, Reached, Late, FileFits,
      Mirrors, Legal;
    var rs := RecordsOf(c, steps);
    var k := Whole(c.crc, rs, p);
    TornTailAtStart(c.crc, rs, p);
    CommitInRange(c, steps, start, k);
    Reopened(c, steps, start, k);
  }
}
