/**
 * From the log to the state machine: the Ready/Advance cycle and the server's apply cursor
 * (raft-kv/raft/node.cpp:125-185, raft-kv/server/raft_node.cpp:96-133, 242-356), on values.
 */
module Apply {
  import opened Proto
  import opened Sizes
  import opened LogSpec

  const NOTHING := Snapshot(0, 0, [])

  /**
   * log is the consensus side. cursor and store are the server side: applied_index_ and the
   * entries the state machine has absorbed. snap is the snapshot to install when log.pending.
   */
  datatype Machine = Machine(log: LogState, snap: Snapshot, cursor: nat, store: seq<Entry>) {

    /** The state machine holds entries 1 to cursor, each once and in order, as the log has them. */
    ghost predicate Faithful() {
      && Numbered(store, 1) && |store| == cursor
      && forall i | log.log.base < i <= cursor :: log.log.Holds(i) && log.log.At(i) == store[i - 1]
    }

    ghost predicate Good() {
      && log.Valid()
      && log.applied <= cursor <= log.committed
      && (log.pending ==>
            && cursor < log.log.base
            && snap.index == log.log.base && |snap.data| == snap.index && Numbered(snap.data, 1))
      && (!log.pending ==> log.log.base <= cursor)
      && Faithful()
    }

    /** The cursor and the store once a pending snapshot is installed. */
    function Resumed(): nat { if log.pending then snap.index else cursor }

    function ResumedStore(): seq<Entry> { if log.pending then snap.data else store }

    /** RaftNode::entries_to_apply throws when the batch would leave a gap. */
    ghost predicate Gap(max: nat)
      requires log.Valid()
    {
      log.NextEntries(max) != [] && log.NextEntries(max)[0].index > Resumed() + 1
    }

    /** The server-side cursor after the cycle. */
    ghost function Cursor(max: nat): nat
      requires log.Valid()
    {
      Max(Resumed(), log.Cursor(max))
    }

    /** RaftNode::entries_to_apply: what the batch holds beyond the cursor. */
    ghost function News(max: nat): seq<Entry>
      requires log.Valid() && !Gap(max)
    {
      var batch := log.NextEntries(max);
      if batch == [] || Resumed() + 1 >= batch[0].index + |batch| then []
      else batch[Resumed() + 1 - batch[0].index..]
    }

    ghost predicate CanCompact(max: nat, k: nat)
      requires log.Valid()
    {
      log.log.base <= k <= Cursor(max) && k <= log.log.Last()
    }

    /** One whole Ready cycle, with the log compacted at k. */
    ghost function Cycle(max: nat, k: nat): Machine
      requires log.Valid() && !Gap(max) && CanCompact(max, k)
    {
      Machine(LogState(log.log.Compacted(k), false, log.committed, log.Cursor(max)),
          NOTHING, Cursor(max), ResumedStore() + News(max))
    }
  }

  /** What can happen to a node's log between and in Ready cycles. */
  datatype Event =
    | Append(ents: seq<Entry>)
    | MaybeAppend(index: nat, logTerm: Term, commit: nat, ents: seq<Entry>)
    | Commit(k: nat)
    | Install(s: Snapshot)
    | Cycle(max: nat, compact: nat)

  /** The calls the callers make: none that would throw, and only snapshots ahead of the commit index. */
  ghost predicate Enabled(a: Machine, e: Event)
    requires a.log.Valid()
  {
    match e
    case Append(ents) => a.log.CanAppend(ents) && (ents != [] ==> Numbered(ents, ents[0].index))
    case MaybeAppend(index, logTerm, commit, ents) =>
      Numbered(ents, index + 1) && a.log.CanMaybeAppend(index, logTerm, commit, ents)
    case Commit(k) => a.log.CanCommit(k)
    case Install(s) => s.index > a.log.committed && |s.data| == s.index && Numbered(s.data, 1)
    case Cycle(max, k) => !a.Gap(max) && a.CanCompact(max, k)
  }

  ghost function Next(a: Machine, e: Event): Machine
    requires a.log.Valid() && Enabled(a, e)
  {
    match e
    case Append(ents) => a.(log := a.log.Append(ents))
    case MaybeAppend(index, logTerm, commit, ents) => a.(log := a.log.MaybeAppend(index, logTerm, commit, ents))
    case Commit(k) => a.(log := a.log.CommitTo(k))
    case Install(s) => a.(log := a.log.Restore(s), snap := s)
    case Cycle(max, k) => a.Cycle(max, k)
  }

  /** Nothing at or below the commit index is ever cut. */
  lemma AppendKeeps(a: Machine, ents: seq<Entry>)
    requires a.Good() && a.log.CanAppend(ents) && (ents != [] ==> Numbered(ents, ents[0].index))
    ensures a.(log := a.log.Append(ents)).Good()
  {
    if ents != [] {
      AppendAt(a.log.log, ents, 0);
      var a' := a.(log := a.log.Append(ents));
      forall i | a.log.log.base < i <= a.cursor ensures a'.log.log.Holds(i) && a'.log.log.At(i) == a.store[i - 1] {
        AppendAt(a.log.log, ents, i);
      }
    }
  }

  lemma MaybeAppendKeeps(a: Machine, index: nat, logTerm: Term, commit: nat, ents: seq<Entry>)
    requires a.Good() && Enabled(a, MaybeAppend(index, logTerm, commit, ents))
    ensures a.(log := a.log.MaybeAppend(index, logTerm, commit, ents)).Good()
  {
    hide Log.FindConflict, Log.Append, Machine.Faithful;
    if a.log.Matches(index, logTerm) {
      MergedIsAppend(a.log, index, ents);
      var ci := a.log.log.FindConflict(ents);
      var b := a;
      if ci != 0 {
        var kept := ents[ci - index - 1..];
        AppendKeeps(a, kept);
        b := a.(log := a.log.Append(kept));
      }
      CommitKeeps(b, Min(commit, index + |ents|));
    }
  }

  lemma CommitKeeps(a: Machine, k: nat)
    requires a.Good() && a.log.CanCommit(k)
    ensures a.(log := a.log.CommitTo(k)).Good()
  {
  }

  /** What a cycle publishes: exactly the log entries from the resumed cursor to the new one. */
  lemma NewsIsNext(a: Machine, max: nat)
    requires a.Good()
    ensures !a.Gap(max)
    ensures a.Resumed() <= a.Cursor(max) <= a.log.committed
    ensures a.log.log.base <= a.Resumed()
    ensures a.News(max) == a.log.log.Slice(a.Resumed() + 1, a.Cursor(max) + 1)
  {
    hide IsLimited, Limited, Numbered, Machine.Faithful, Log.Slice;
    CursorInRange(a.log, max);
    var batch := a.log.NextEntries(max);
    var low, from, to := a.log.NextIndex(), a.Resumed() + 1, a.Cursor(max) + 1;
    PrefixOfSlice(a.log.log, low, low + |batch|, batch);
    SliceLength(a.log.log, from, to);
    if batch != [] && from < low + |batch| {
      assert to == low + |batch|;
      SliceSuffix(a.log.log, low, from, to);
    }
  }

  lemma CycleKeeps(a: Machine, max: nat, k: nat)
    requires a.Good() && a.CanCompact(max, k)
    ensures !a.Gap(max) && a.Cycle(max, k).Good()
    ensures a.Cycle(max, k).store == a.ResumedStore() + a.log.log.Slice(a.Resumed() + 1, a.Cursor(max) + 1)
  {
    hide IsLimited, Limited, LogState.NextEntries, Log.Slice, Log.Compacted;
    NewsIsNext(a, max);
    CursorInRange(a.log, max);
    CompactedAt(a.log.log, k, 0);
    StoreGrows(a, a.Cursor(max));
    var a' := a.Cycle(max, k);
    forall i | k < i <= a'.cursor ensures a'.log.log.Holds(i) && a'.log.log.At(i) == a'.store[i - 1] {
      CompactedAt(a.log.log, k, i);
    }
  }

  lemma StoreGrows(a: Machine, to: nat)
    requires a.Good() && a.Resumed() <= to <= a.log.log.Last()
    ensures a.log.log.base <= a.Resumed()
    ensures var store := a.ResumedStore() + a.log.log.Slice(a.Resumed() + 1, to + 1);
      && Numbered(store, 1) && |store| == to
      && forall i | a.log.log.base < i <= to :: a.log.log.At(i) == store[i - 1]
  {
    SliceNumbered(a.log.log, a.Resumed() + 1, to + 1);
    NumberedConcat(a.ResumedStore(), a.log.log.Slice(a.Resumed() + 1, to + 1), 1);
  }

  lemma EventKeeps(a: Machine, e: Event)
    requires a.Good() && Enabled(a, e)
    ensures Next(a, e).Good()
  {
    match e
    case Append(ents) => AppendKeeps(a, ents);
    case MaybeAppend(index, logTerm, commit, ents) => MaybeAppendKeeps(a, index, logTerm, commit, ents);
    case Commit(k) => CommitKeeps(a, k);
    case Install(s) =>
    case Cycle(max, k) => CycleKeeps(a, max, k);
  }

  ghost predicate Follows(a: Machine, e: Event, a': Machine) {
    a.log.Valid() && Enabled(a, e) && a' == Next(a, e)
  }

  /** States along a run: each follows from the one before by an enabled event. */
  ghost predicate IsRun(states: seq<Machine>, events: seq<Event>) {
    && |states| == |events| + 1
    && states[0].Good()
    && forall i {:trigger events[i]} | 0 <= i < |events| :: Follows(states[i], events[i], states[i + 1])
  }

  /**
   * Exactly-once apply. In every state of every run applied <= committed, the state machine
   * holds the entries 1 to cursor, each exactly once, in order and as the log has them, and the
   * next batch never starts beyond the cursor.
   */
  lemma {:induction false} ExactlyOnce(states: seq<Machine>, events: seq<Event>, k: nat)
    requires IsRun(states, events) && k < |states|
    ensures states[k].Good()
    ensures states[k].log.applied <= states[k].cursor <= states[k].log.committed
    ensures states[k].Faithful()
    ensures forall max: nat :: !states[k].Gap(max)
  {
    if k > 0 {
      hide Machine.Good, Machine.Faithful, Next, Enabled;
      var p := k - 1;
      ExactlyOnce(states, events, p);
      EventKeeps(states[p], events[p]);
    }
    forall max: nat ensures !states[k].Gap(max) {
      NewsIsNext(states[k], max);
    }
  }

  /** The entries one event hands to the state machine. */
  ghost function Published(a: Machine, e: Event): seq<Entry>
    requires a.log.Valid() && Enabled(a, e)
  {
    if e.Cycle? then a.News(e.max) else []
  }

  /** All entries published in events[from..till). */
  ghost function Stream(states: seq<Machine>, events: seq<Event>, from: nat, till: nat): seq<Entry>
    requires IsRun(states, events) && from <= till <= |events|
    decreases till
  {
    if from == till then [] else Stream(states, events, from, till - 1) + Published(states[till - 1], events[till - 1])
  }

  ghost predicate NoInstall(states: seq<Machine>, from: nat, till: nat)
    requires from <= till <= |states|
  {
    forall i | from <= i < till :: !states[i].log.pending
  }

  /**
   * The published stream has no gap and no repeat: between snapshots it is numbered
   * consecutively from the cursor on, and the store grows by exactly that stream.
   */
  lemma {:induction false} StreamIsContiguous(states: seq<Machine>, events: seq<Event>, from: nat, till: nat)
    requires IsRun(states, events) && from <= till <= |events|
    requires NoInstall(states, from, till)
    ensures Numbered(Stream(states, events, from, till), states[from].cursor + 1)
    ensures states[till].store == states[from].store + Stream(states, events, from, till)
    ensures states[till].cursor == states[from].cursor + |Stream(states, events, from, till)|
    decreases till
  {
    hide *;
    RunLength(states, events);
    StreamUnfolds(states, events, from, till);
    if from < till {
      var p := till - 1;
      RunStep(states, events, p);
      var a, e, sofar := states[p], events[p], Stream(states, events, from, p);
      StreamIsContiguous(states, events, from, p);
      StepPublishes(a, e);
      NumberedConcat(sofar, Published(a, e), states[from].cursor + 1);
      assert states[till].store == states[from].store + (sofar + Published(a, e));
    }
  }

  lemma RunLength(states: seq<Machine>, events: seq<Event>)
    requires IsRun(states, events)
    ensures |states| == |events| + 1
  {
  }

  lemma StreamUnfolds(states: seq<Machine>, events: seq<Event>, from: nat, till: nat)
    requires IsRun(states, events) && from <= till <= |events|
    requires NoInstall(states, from, till)
    ensures from == till ==>
      Stream(states, events, from, till) == [] && Numbered([], states[from].cursor + 1)
    ensures from < till ==>
      && Stream(states, events, from, till)
         == Stream(states, events, from, till - 1) + Published(states[till - 1], events[till - 1])
      && NoInstall(states, from, till - 1) && !states[till - 1].log.pending
  {
  }

  lemma RunStep(states: seq<Machine>, events: seq<Event>, p: nat)
    requires IsRun(states, events) && p < |events|
    ensures states[p].Good() && Enabled(states[p], events[p]) && states[p + 1] == Next(states[p], events[p])
  {
    ExactlyOnce(states, events, p);
  }

  lemma NumberedConcat(a: seq<Entry>, b: seq<Entry>, first: nat)
    requires Numbered(a, first) && Numbered(b, first + |a|)
    ensures Numbered(a + b, first)
  {
  }

  lemma StepPublishes(a: Machine, e: Event)
    requires a.Good() && Enabled(a, e) && !a.log.pending
    ensures Numbered(Published(a, e), a.cursor + 1)
    ensures Next(a, e).store == a.store + Published(a, e)
    ensures Next(a, e).cursor == a.cursor + |Published(a, e)|
  {
    if e.Cycle? {
      CyclePublishes(a, e.max, e.compact);
    } else {
      assert Published(a, e) == [];
    }
  }

  lemma CyclePublishes(a: Machine, max: nat, k: nat)
    requires a.Good() && !a.Gap(max) && a.CanCompact(max, k) && !a.log.pending
    ensures Numbered(a.News(max), a.cursor + 1)
    ensures a.Cycle(max, k).store == a.store + a.News(max)
    ensures a.Cycle(max, k).cursor == a.cursor + |a.News(max)|
  {
    hide IsLimited, Limited, LogState.NextEntries, Log.Slice, Machine.Faithful, Machine.News;
    NewsIsNext(a, max);
    SliceNumbered(a.log.log, a.cursor + 1, a.Cursor(max) + 1);
    SliceLength(a.log.log, a.cursor + 1, a.Cursor(max) + 1);
  }

  lemma TogetherStep(a: Machine, e: Event)
    requires a.Good() && Enabled(a, e) && a.log.applied == a.cursor
    ensures Next(a, e).log.applied == Next(a, e).cursor
  {
    if e.Cycle? {
      hide IsLimited, Limited, LogState.NextEntries, Machine.Faithful, Log.Slice;
      CursorInRange(a.log, e.max);
    }
  }

  lemma GoodBase(states: seq<Machine>, events: seq<Event>, k: nat)
    requires IsRun(states, events) && k < |states|
    ensures !states[k].log.pending ==> states[k].log.log.base <= states[k].cursor
  {
    ExactlyOnce(states, events, k);
  }

  /** Where both cursors start together they stay together, so nothing is compacted unapplied. */
  lemma {:induction false} CursorsStayTogether(states: seq<Machine>, events: seq<Event>, k: nat)
    requires IsRun(states, events) && k < |states|
    requires states[0].log.applied == states[0].cursor
    ensures states[k].log.applied == states[k].cursor
    ensures !states[k].log.pending ==> states[k].log.log.base <= states[k].log.applied
  {
    hide *;
    RunLength(states, events);
    GoodBase(states, events, k);
    if k > 0 {
      CursorsStayTogether(states, events, k - 1);
      RunStep(states, events, k - 1);
      TogetherStep(states[k - 1], events[k - 1]);
    }
  }

  /**
   * applied_index_ after publish_entries: a configuration change that does not unpack is skipped
   * before the cursor is moved (raft-kv/server/raft_node.cpp:254-263, 291-292).
   */
  function CursorAfter(cursor: nat, ents: seq<Entry>, decodes: Entry -> bool): nat {
    if ents == [] then cursor
    else
      var e := ents[|ents| - 1];
      if decodes(e) then e.index else CursorAfter(cursor, ents[..|ents| - 1], decodes)
  }

  /** ents[k] is the last entry that unpacks, and the cursor stands at it. */
  predicate LastGood(cursor: nat, ents: seq<Entry>, decodes: Entry -> bool, k: int) {
    && 0 <= k < |ents| && decodes(ents[k]) && CursorAfter(cursor, ents, decodes) == ents[k].index
    && forall i | k < i < |ents| :: !decodes(ents[i])
  }

  /** The cursor stands at the last entry that unpacks, or where it was if none does. */
  lemma {:induction false} CursorStops(cursor: nat, ents: seq<Entry>, decodes: Entry -> bool)
    ensures var c := CursorAfter(cursor, ents, decodes);
      || (c == cursor && forall i | 0 <= i < |ents| :: !decodes(ents[i]))
      || exists k :: LastGood(cursor, ents, decodes, k)
    decreases |ents|
  {
    if ents != [] && decodes(ents[|ents| - 1]) {
      assert LastGood(cursor, ents, decodes, |ents| - 1);
    } else if ents != [] {
      var shorter := ents[..|ents| - 1];
      CursorStops(cursor, shorter, decodes);
      assert forall i | 0 <= i < |shorter| :: shorter[i] == ents[i];
      if k :| LastGood(cursor, shorter, decodes, k) {
        assert LastGood(cursor, ents, decodes, k);
      }
    }
  }

  /**
   * The cursor reaches the end of the batch exactly when the last entry unpacks. Otherwise the
   * batch after it, which starts right behind, makes entries_to_apply throw.
   */
  lemma {:induction false} CursorKeepsUp(cursor: nat, ents: seq<Entry>, decodes: Entry -> bool)
    requires ents != [] && Numbered(ents, cursor + 1)
    ensures var last := ents[|ents| - 1];
      && cursor <= CursorAfter(cursor, ents, decodes) <= last.index
      && (CursorAfter(cursor, ents, decodes) == last.index <==> decodes(last))
      && (last.index + 1 > CursorAfter(cursor, ents, decodes) + 1 <==> !decodes(last))
  {
    var shorter := ents[..|ents| - 1];
    if shorter != [] {
      CursorKeepsUp(cursor, shorter, decodes);
    }
  }
}
