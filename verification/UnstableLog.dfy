/** The volatile tier: entries and snapshot not yet saved (raft-kv/raft/unstable.cpp). */
module UnstableLog {
  import opened Proto
  import opened LogSpec

  datatype Option<T> = None | Some(value: T)

  class Unstable {
    var snapshot: Option<Snapshot>
    var entries: seq<Entry>
    /** entries[i] has log position offset + i. */
    var offset: nat

    ghost predicate Valid()
      reads this
    {
      Numbered(entries, offset)
    }

    constructor (offset: nat)
      ensures Valid() && snapshot == None && entries == [] && this.offset == offset
    {
      this.offset := offset;
      entries := [];
      snapshot := None;
    }

    method MaybeFirstIndex() returns (index: Option<nat>)
      ensures index == if snapshot.Some? then Some(snapshot.value.index + 1) else None
    {
      index := if snapshot.Some? then Some(snapshot.value.index + 1) else None;
    }

    method MaybeLastIndex() returns (index: Option<nat>)
      ensures index ==
        if entries != [] then Some(offset + |entries| - 1)
        else if snapshot.Some? then Some(snapshot.value.index) else None
    {
      if entries != [] {
        return Some(offset + |entries| - 1);
      }
      if snapshot.Some? {
        return Some(snapshot.value.index);
      }
      return None;
    }

    /** unstable.cpp:31-59; a pending snapshot is the one thing below offset that has a term. */
    method MaybeTerm(index: nat) returns (term: Option<Term>)
      requires snapshot.Some? ==> snapshot.value.index < offset
      ensures index < offset ==>
        term == if snapshot.Some? && snapshot.value.index == index then Some(snapshot.value.term) else None
      ensures offset <= index < offset + |entries| ==> term == Some(entries[index - offset].term)
      ensures index >= offset + |entries| && index >= offset ==> term == None
    {
      if index < offset {
        if snapshot.None? {
          return None;
        }
        if snapshot.value.index == index {
          return Some(snapshot.value.term);
        }
        return None;
      }
      var last := MaybeLastIndex();
      if last.None? || index > last.value {
        return None;
      }
      return Some(entries[index - offset].term);
    }

    /** unstable.cpp:61-77: forget what is saved, if it is still what was handed out. */
    method StableTo(index: nat, term: Term)
      requires Valid() && (snapshot.Some? ==> snapshot.value.index < offset)
      modifies this`entries, this`offset
      ensures Valid()
      ensures
        if old(offset) <= index < old(offset) + |old(entries)| && old(entries)[index - old(offset)].term == term
        then offset == index + 1 && entries == old(entries)[index + 1 - old(offset)..]
        else offset == old(offset) && entries == old(entries)
    {
      var gt := MaybeTerm(index);
      if gt.None? {
        return;
      }
      if gt.value == term && index >= offset {
        entries := entries[index + 1 - offset..];
        offset := index + 1;
      }
    }

    method StableSnapTo(index: nat)
      modifies this`snapshot
      ensures snapshot ==
        if old(snapshot).Some? && old(snapshot).value.index == index then None else old(snapshot)
    {
      if snapshot.Some? && snapshot.value.index == index {
        snapshot := None;
      }
    }

    method Restore(s: Snapshot)
      modifies this
      ensures Valid() && snapshot == Some(s) && entries == [] && offset == s.index + 1
    {
      offset := s.index + 1;
      entries := [];
      snapshot := Some(s);
    }

    /** unstable.cpp:117-125; a range outside throws. */
    method Slice(low: nat, high: nat) returns (r: seq<Entry>)
      requires offset <= low < high <= offset + |entries|
      ensures r == entries[low - offset..high - offset]
    {
      r := entries[low - offset..high - offset];
    }

    /**
     * unstable.cpp:91-115. All three cases come to the same: entries before the first new one
     * stay, the new ones follow, and the tier starts at whichever comes first.
     */
    method TruncateAndAppend(ents: seq<Entry>)
      requires Valid()
      requires ents != [] ==> Numbered(ents, ents[0].index) && ents[0].index <= offset + |entries|
      modifies this`entries, this`offset
      ensures Valid()
      ensures ents == [] ==> offset == old(offset) && entries == old(entries)
      ensures ents != [] ==>
        && offset == Min(old(offset), ents[0].index)
        && entries == old(entries)[..ents[0].index - offset] + ents
    {
      if ents == [] {
        return;
      }
      var after := ents[0].index;
      if after == offset + |entries| {
        entries := entries + ents;
      } else if after <= offset {
        offset := after;
        entries := ents;
      } else {
        var kept := Slice(offset, after);
        entries := kept + ents;
      }
    }
  }
}
