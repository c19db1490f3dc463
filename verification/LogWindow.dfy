/**
 * The log the consensus argument speaks of never forgets its beginning; the log a node keeps is
 * a window of it, cut off at the last compaction. Seen through the window everything is the same.
 */
module LogWindow {
  import opened Proto
  import opened LogSpec
  import NodeSpec

  ghost predicate IsWindow(w: Log, full: seq<Entry>) {
    && Numbered(full, 1)
    && w.base <= |full|
    && w.baseTerm == NodeSpec.TermAt(full, w.base)
    && w.entries == full[w.base..]
  }

  lemma WindowFacts(w: Log, full: seq<Entry>)
    requires IsWindow(w, full)
    ensures w.Valid() && w.Last() == |full|
    ensures forall i: nat | i >= w.base :: w.TermAt(i) == NodeSpec.TermAt(full, i)
    ensures w.TermAt(w.Last()) == NodeSpec.LastTerm(full)
  {
    forall i: nat | i >= w.base ensures w.TermAt(i) == NodeSpec.TermAt(full, i) {
      if w.Holds(i) {
        assert w.entries[i - w.base - 1] == full[i - 1];
      }
    }
    forall i | 0 <= i < |w.entries| ensures w.entries[i].index == w.base + 1 + i {
      assert w.entries[i] == full[w.base + i];
    }
  }

  lemma WindowSlice(w: Log, full: seq<Entry>, low: nat, high: nat)
    requires IsWindow(w, full) && w.base < low <= high <= |full| + 1
    ensures high <= w.Last() + 1 && w.Slice(low, high) == full[low - 1..high - 1]
  {
  }

  lemma {:induction false} WindowConflict(w: Log, full: seq<Entry>, ents: seq<Entry>, first: nat)
    requires IsWindow(w, full) && Numbered(ents, first) && first > w.base
    ensures w.FindConflict(ents) == NodeSpec.FindConflict(full, ents)
  {
    if ents != [] {
      WindowFacts(w, full);
      SuffixNumbered(ents, first, 1);
      WindowConflict(w, full, ents[1..], first + 1);
    }
  }

  lemma WindowAppend(w: Log, full: seq<Entry>, ents: seq<Entry>)
    requires IsWindow(w, full) && ents != []
    requires Numbered(ents, ents[0].index) && w.base < ents[0].index <= |full| + 1
    ensures w.Last() == |full|
    ensures IsWindow(w.Append(ents), full[..ents[0].index - 1] + ents)
  {
    var full' := full[..ents[0].index - 1] + ents;
    assert full[w.base..][..ents[0].index - w.base - 1] == full[w.base..ents[0].index - 1];
    assert full'[w.base..] == full[w.base..ents[0].index - 1] + ents;
    if w.base > 0 {
      assert full'[w.base - 1] == full[w.base - 1];
    }
  }

  /** An accepted append does to the window what it does to the whole log. */
  lemma WindowMerge(s: LogState, full: seq<Entry>, index: nat, ents: seq<Entry>)
    requires IsWindow(s.log, full) && s.log.base <= s.committed && s.log.base <= index
    requires Numbered(ents, index + 1)
    requires var ci := s.log.FindConflict(ents);
      ci == 0 || (index < ci <= index + |ents| && s.committed < ci <= s.log.Last() + 1)
    ensures IsWindow(s.Merged(index, ents), NodeSpec.Merge(full, index, ents))
  {
    hide Log.FindConflict, NodeSpec.FindConflict, Log.Append, IsWindow, Numbered;
    WindowFacts(s.log, full);
    WindowConflict(s.log, full, ents, index + 1);
    MergedIsAppend(s, index, ents);
    var ci := s.log.FindConflict(ents);
    if ci != 0 {
      WindowAppend(s.log, full, ents[ci - index - 1..]);
    }
  }

  lemma WindowRestored(s: Snapshot)
    requires |s.data| == s.index && Numbered(s.data, 1) && s.term == NodeSpec.TermAt(s.data, s.index)
    ensures IsWindow(Log.Restored(s), s.data)
  {
  }

  lemma WindowCompacted(w: Log, full: seq<Entry>, k: nat)
    requires IsWindow(w, full) && w.base <= k <= |full|
    ensures k <= w.Last() && IsWindow(w.Compacted(k), full)
  {
    WindowFacts(w, full);
    assert full[w.base..][k - w.base..] == full[k..];
  }
}
