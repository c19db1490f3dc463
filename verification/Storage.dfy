/** The stable tier: MemoryStorage (raft-kv/raft/storage.cpp). */
module Storage {
  import opened Proto
  import opened Sizes
  import opened LogSpec

  datatype HardState = HardState(term: Term, vote: Id, commit: nat)

  datatype Error = Compacted | Unavailable | SnapshotOutOfDate

  datatype Result<T> = Ok(value: T) | Err(error: Error)

  const DUMMY := Entry(Normal, 0, 0, [])

  class MemoryStorage {
    var hardState: HardState
    var snapshot: Snapshot
    /** entries[0] is a dummy that keeps index and term of the last compacted entry. */
    var entries: seq<Entry>

    ghost predicate Valid()
      reads this
    {
      |entries| >= 1 && Numbered(entries, entries[0].index)
    }

    /** What the storage holds, as a log. */
    ghost function Abs(): Log
      requires Valid()
      reads this
    {
      Log(entries[0].index, entries[0].term, entries[1..])
    }

    constructor ()
      ensures Valid()
      ensures Abs() == Log(0, 0, []) && snapshot == Snapshot(0, 0, []) && hardState == HardState(0, 0, 0)
    {
      hardState := HardState(0, 0, 0);
      snapshot := Snapshot(0, 0, []);
      entries := [DUMMY];
    }

    method FirstIndex() returns (index: nat)
      requires Valid()
      ensures index == Abs().First()
    {
      index := entries[0].index + 1;
    }

    method LastIndex() returns (index: nat)
      requires Valid()
      ensures index == Abs().Last()
    {
      index := entries[0].index + |entries| - 1;
    }

    /** storage.cpp:49-63: unlike RaftLog, storage reports what it does not have. */
    method Term(i: nat) returns (r: Result<Term>)
      requires Valid()
      ensures i < Abs().base <==> r == Err(Compacted)
      ensures i > Abs().Last() <==> r == Err(Unavailable)
      ensures Abs().base <= i <= Abs().Last() ==> r == Ok(Abs().TermAt(i))
    {
      var offset := entries[0].index;
      if i < offset {
        return Err(Compacted);
      }
      if i - offset >= |entries| {
        return Err(Unavailable);
      }
      return Ok(entries[i - offset].term);
    }

    /** storage.cpp:20-47. A range beyond the last entry throws. */
    method Entries(low: nat, high: nat, max: nat) returns (r: Result<seq<Entry>>)
      requires Valid() && low < high <= Abs().Last() + 1
      ensures low <= Abs().base <==> r == Err(Compacted)
      ensures low > Abs().base ==> r.Ok? && IsLimited(Abs().Slice(low, high), max, r.value)
    {
      var offset := entries[0].index;
      if low <= offset {
        return Err(Compacted);
      }
      if |entries| == 1 {
        assert false;
        return Err(Unavailable);
      }
      var out := [];
      var i := low - offset;
      while i < high - offset
        invariant low - offset <= i <= high - offset
        invariant out == entries[low - offset..i]
      {
        out := out + [entries[i]];
        i := i + 1;
      }
      assert out == Abs().Slice(low, high);
      out := LimitSize(max, out);
      return Ok(out);
    }

    /** storage.cpp:104-141. A gap before the first new entry throws. */
    method Append(ents: seq<Entry>)
      requires Valid()
      requires ents != [] ==> Numbered(ents, ents[0].index) && ents[0].index <= Abs().Last() + 1
      modifies this`entries
      ensures Valid()
      ensures Abs() == old(Abs()).Overwrite(ents)
    {
      if ents == [] {
        return;
      }
      var first := entries[0].index + 1;
      var last := ents[0].index + |ents| - 1;
      if last < first {
        return;
      }
      var kept := ents;
      if first > ents[0].index {
        kept := ents[first - ents[0].index..];
        assert kept[0].index == first;
      }
      var offset := kept[0].index - entries[0].index;
      entries := entries[..offset] + kept;
      assert Numbered(entries, entries[0].index);
      assert entries[1..] == old(entries[1..])[..offset - 1] + kept;
    }

    /** storage.cpp:81-102. An index beyond the last entry throws. */
    method Compact(k: nat) returns (r: Result<()>)
      requires Valid() && k <= Abs().Last()
      modifies this`entries
      ensures Valid()
      ensures k <= old(Abs()).base ==> r == Err(Compacted) && Abs() == old(Abs())
      ensures k > old(Abs()).base ==> r == Ok(()) && Abs() == old(Abs()).Compacted(k)
    {
      var offset := entries[0].index;
      if k <= offset {
        return Err(Compacted);
      }
      var i := k - offset;
      var dummy := entries[0].(index := entries[i].index, term := entries[i].term);
      entries := [dummy] + entries[i + 1..];
      return Ok(());
    }

    /** storage.cpp:143-170. The snapshot takes its term from the log. */
    method CreateSnapshot(index: nat, data: seq<Entry>) returns (r: Result<Snapshot>)
      requires Valid() && index <= Abs().Last() && Abs().base <= Max(index, snapshot.index)
      modifies this`snapshot
      ensures index <= old(snapshot.index) ==> r == Err(SnapshotOutOfDate) && snapshot == old(snapshot)
      ensures index > old(snapshot.index) ==>
        r == Ok(snapshot) && snapshot == Snapshot(index, Abs().TermAt(index), data)
    {
      if index <= snapshot.index {
        return Err(SnapshotOutOfDate);
      }
      snapshot := Snapshot(index, entries[index - entries[0].index].term, data);
      return Ok(snapshot);
    }

    /** storage.cpp:172-190. The whole content is replaced. */
    method ApplySnapshot(s: Snapshot) returns (r: Result<()>)
      requires Valid()
      modifies this`snapshot, this`entries
      ensures Valid()
      ensures s.index <= old(snapshot.index) ==>
        r == Err(SnapshotOutOfDate) && snapshot == old(snapshot) && Abs() == old(Abs())
      ensures s.index > old(snapshot.index) ==> r == Ok(()) && snapshot == s && Abs() == Log.Restored(s)
    {
      if snapshot.index >= s.index {
        return Err(SnapshotOutOfDate);
      }
      snapshot := s;
      entries := [Entry(Normal, s.term, s.index, [])];
      return Ok(());
    }
  }
}
