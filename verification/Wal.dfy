/** Saving to and recovering from the write-ahead log (raft-kv/wal/wal.cpp). */
module Wal {
  import opened Proto
  import opened LogSpec
  import opened Storage
  import opened WalFormat

  datatype Mark = Mark(index: nat, term: Term)

  /** The serializer and the checksum, of which only the round trips matter. */
  datatype Codec = Codec(
    crc: Checksum,
    packEntry: Entry -> seq<Byte>, unpackEntry: seq<Byte> -> Entry,
    packState: HardState -> seq<Byte>, unpackState: seq<Byte> -> HardState,
    packMark: Mark -> seq<Byte>, unpackMark: seq<Byte> -> Mark) {

    ghost predicate Valid() {
      && ValidChecksum(crc)
      && (forall e :: unpackEntry(packEntry(e)) == e)
      && (forall h :: unpackState(packState(h)) == h)
      && (forall m :: unpackMark(packMark(m)) == m)
    }
  }

  const EMPTY_STATE := HardState(0, 0, 0)

  const SEGMENT: nat := 64_000_000

  // ---------------------------------------------------------------- what is written

  function EntryRecords(c: Codec, ents: seq<Entry>): seq<Record> {
    if ents == [] then [] else EntryRecords(c, ents[..|ents| - 1]) + [Record(ENTRY, c.packEntry(ents[|ents| - 1]))]
  }

  function StateRecords(c: Codec, hs: HardState): seq<Record> {
    if hs == EMPTY_STATE then [] else [Record(STATE, c.packState(hs))]
  }

  /** save: the entries before the hard state. */
  function SaveRecords(c: Codec, hs: HardState, ents: seq<Entry>): seq<Record> {
    EntryRecords(c, ents) + StateRecords(c, hs)
  }

  // ---------------------------------------------------------------- what is read

  /** The outputs of read_all. fatal stands for its throws. */
  datatype Recovered = Recovered(hs: HardState, ents: seq<Entry>, matched: bool, last: nat, fatal: bool)

  const NOTHING_YET := Recovered(EMPTY_STATE, [], false, 0, false)

  /**
   * handle_record_wal_record, with start the snapshot the log is opened at. Entries replace what
   * lies at and behind their place; a gap before them would be filled with null pointers, which
   * counts as fatal here.
   */
  function HandleRecord(c: Codec, start: Mark, s: Recovered, r: Record): Recovered {
    if s.fatal then s
    else if r.kind == ENTRY then
      var e := c.unpackEntry(r.data);
      if e.index <= start.index then s.(last := e.index)
      else if e.index - start.index - 1 > |s.ents| then s.(fatal := true)
      else s.(ents := s.ents[..e.index - start.index - 1] + [e], last := e.index)
    else if r.kind == STATE then s.(hs := c.unpackState(r.data))
    else if r.kind == SNAPSHOT then
      var m := c.unpackMark(r.data);
      if m.index == start.index && m.term != start.term then s.(fatal := true) else s.(matched := true)
    else s.(fatal := true)
  }

  function Replay(c: Codec, start: Mark, rs: seq<Record>): Recovered {
    if rs == [] then NOTHING_YET else HandleRecord(c, start, Replay(c, start, rs[..|rs| - 1]), rs[|rs| - 1])
  }

  // ---------------------------------------------------------------- the objects

  class WalFile {
    const crc: Checksum
    /** What is on disk. */
    var disk: seq<Byte>
    /** data_buffer: appended, but not yet written. */
    var buffer: seq<Byte>
    var fileSize: nat

    constructor (crc: Checksum, disk: seq<Byte>)
      ensures this.crc == crc && this.disk == disk && buffer == []
    {
      this.crc, this.disk, buffer, fileSize := crc, disk, [], |disk|;
    }

    /** wal.cpp:62-70: the header's length is cut to what fits, the data are not. */
    method Append(kind: Byte, data: seq<Byte>)
      modifies this`buffer
      ensures buffer == old(buffer) + Encode(crc, Record(kind, data))
    {
      var header := [kind] + LenBytes(|data|) + WordBytes(crc(data));
      buffer := buffer + header;
      buffer := buffer + data;
    }

    method Sync()
      modifies this`disk, this`buffer, this`fileSize
      ensures disk == old(disk) + old(buffer) && buffer == []
    {
      if buffer == [] {
        return;
      }
      disk := disk + buffer;
      fileSize := fileSize + |buffer|;
      buffer := [];
    }

    method Truncate(offset: nat)
      requires offset <= |disk|
      modifies this`disk, this`buffer, this`fileSize
      ensures disk == old(disk)[..offset] && buffer == []
    {
      disk := disk[..offset];
      fileSize := offset;
      buffer := [];
    }
  }

  /** The log in its one segment file. */
  class Wal {
    const codec: Codec
    const start: Mark
    const file: WalFile
    var state: HardState
    var last: nat

    constructor (codec: Codec, file: WalFile, start: Mark)
      requires file.crc == codec.crc
      ensures this.codec == codec && this.file == file && this.start == start && state == EMPTY_STATE
    {
      this.codec, this.file, this.start := codec, file, start;
      state, last := EMPTY_STATE, 0;
    }

    /** Everything written so far, on disk or not. */
    ghost function Bytes(): seq<Byte>
      reads file
    {
      file.disk + file.buffer
    }

    method SaveEntry(e: Entry)
      requires file.crc == codec.crc
      modifies this`last, file`buffer
      ensures file.buffer == old(file.buffer) + Encode(codec.crc, Record(ENTRY, codec.packEntry(e)))
    {
      file.Append(ENTRY, codec.packEntry(e));
      last := e.index;
    }

    method SaveHardState(hs: HardState)
      requires file.crc == codec.crc
      modifies this`state, file`buffer
      ensures file.buffer == old(file.buffer) + EncodeAll(codec.crc, StateRecords(codec, hs))
      ensures state == if hs == EMPTY_STATE then old(state) else hs
    {
      if hs == EMPTY_STATE {
        return;
      }
      state := hs;
      file.Append(STATE, codec.packState(hs));
      EncodeOne(codec.crc, Record(STATE, codec.packState(hs)));
    }

    /** wal.cpp:279-308. With new entries, a new term or a new vote, all of it is on disk in the end. */
    method Save(hs: HardState, ents: seq<Entry>)
      requires file.crc == codec.crc
      modifies this, file`disk, file`buffer, file`fileSize
      ensures Bytes() == old(Bytes()) + EncodeAll(codec.crc, SaveRecords(codec, hs, ents))
      ensures state == (if hs == EMPTY_STATE then old(state) else hs) && old(file.disk) <= file.disk
      ensures ents != [] || hs.term != old(state).term || hs.vote != old(state).vote ==>
        file.buffer == [] || (hs == EMPTY_STATE && ents == [])
      ensures ents == [] && hs.term == old(state).term && hs.vote == old(state).vote && old(file.fileSize) < SEGMENT ==>
        file.disk == old(file.disk)
      ensures ents == [] && hs == EMPTY_STATE ==> file.disk == old(file.disk)
    {
      hide EncodeAll, Encode, EntryRecords, StateRecords, SaveRecords;
      SavedBytes(codec, hs, ents);
      if hs == EMPTY_STATE && ents == [] {
        return;
      }
      var mustSync := ents != [] || hs.term != state.term || hs.vote != state.vote;
      Put(hs, ents);
      if file.fileSize < SEGMENT {
        if mustSync {
          file.Sync();
        }
        return;
      }
      file.Sync();
    }

    method Put(hs: HardState, ents: seq<Entry>)
      requires file.crc == codec.crc
      modifies this, file`buffer
      ensures file.buffer == old(file.buffer) + EncodeAll(codec.crc, SaveRecords(codec, hs, ents))
      ensures state == if hs == EMPTY_STATE then old(state) else hs
    {
      hide EncodeAll, Encode, EntryRecords, StateRecords, SaveRecords;
      SavedBytes(codec, hs, ents);
      SaveEntries(ents);
      SaveHardState(hs);
    }

    method SaveEntries(ents: seq<Entry>)
      requires file.crc == codec.crc
      modifies this`last, file`buffer
      ensures file.buffer == old(file.buffer) + EncodeAll(codec.crc, EntryRecords(codec, ents))
    {
      hide EncodeAll, Encode, EntryRecords;
      var i := 0;
      NoRecords(codec);
      assert ents[..0] == [];
      while i < |ents|
        invariant 0 <= i <= |ents|
        invariant file.buffer == old(file.buffer) + EncodeAll(codec.crc, EntryRecords(codec, ents[..i]))
      {
        OneMoreEntry(codec, ents, i);
        SaveEntry(ents[i]);
        i := i + 1;
      }
      assert ents[..i] == ents;
    }

    /** wal.cpp:315-325. */
    method SaveSnapshot(m: Mark)
      requires file.crc == codec.crc
      modifies this`last, file`disk, file`buffer, file`fileSize
      ensures Bytes() == old(Bytes()) + Encode(codec.crc, Record(SNAPSHOT, codec.packMark(m))) && file.buffer == []
    {
      file.Append(SNAPSHOT, codec.packMark(m));
      if last < m.index {
        last := m.index;
      }
      file.Sync();
    }

    /**
     * wal.cpp:165-277. The records that can be read are replayed, and the file is cut where the
     * first one that cannot begins.
     */
    method ReadAll() returns (s: Recovered)
      requires file.crc == codec.crc && file.buffer == []
      modifies this`last, file`disk, file`buffer, file`fileSize
      ensures var parsed := Parse(codec.crc, old(file.disk), 0);
        && file.disk == Trimmed(old(file.disk), parsed.cut) && file.buffer == []
        && var replayed := Replay(codec, start, parsed.records);
           s == replayed.(fatal := replayed.fatal || !replayed.matched)
    {
      hide LenOf, WordOf, LenAt, RecordAt, Parse, HandleRecord, Replay;
      var data := file.disk;
      var offset := 0;
      s := NOTHING_YET;
      ghost var done := [];
      ghost var whole := Parse(codec.crc, data, 0);
      ReplayNothing(codec, start);
      while offset < |data|
        invariant offset <= |data| && file.disk == data && file.buffer == []
        invariant s == Replay(codec, start, done)
        invariant var rest := Parse(codec.crc, data, offset);
          whole == Parsed(done + rest.records, rest.cut)
        decreases |data| - offset
      {
        ParseCases(codec.crc, data, offset);
        if |data| - offset < HEADER {
          file.Truncate(offset);
          break;
        }
        var kind := data[offset];
        if kind == INVALID {
          break;
        }
        var len := LenAt(data, offset);
        if |data| - offset - HEADER < len {
          file.Truncate(offset);
          break;
        }
        var r := RecordAt(data, offset);
        var word := WordOf(data[offset + 4..offset + 8]);
        if word != 0 && codec.crc(r.data) != word {
          file.Truncate(offset);
          break;
        }
        s := HandleRecord(codec, start, s, r);
        last := s.last;
        offset := offset + HEADER + len;
        ghost var rest := Parse(codec.crc, data, offset);
        ReplayOneMore(codec, start, done, r);
        assert done + ([r] + rest.records) == (done + [r]) + rest.records;
        done := done + [r];
      }
      if offset == |data| {
        ParseCases(codec.crc, data, offset);
      }
      assert done + [] == done;
      if !s.matched {
        s := s.(fatal := true);
      }
    }
  }

  /** What read_all throws at: a gap in the entries, another term at the mark it starts from, an unknown kind of record. */
  lemma RecordRefused(c: Codec, start: Mark, s: Recovered, r: Record)
    requires !s.fatal
    ensures HandleRecord(c, start, s, r).fatal <==>
      || (r.kind == ENTRY && c.unpackEntry(r.data).index > start.index + |s.ents| + 1)
      || (r.kind == SNAPSHOT && c.unpackMark(r.data).index == start.index && c.unpackMark(r.data).term != start.term)
      || (r.kind != ENTRY && r.kind != STATE && r.kind != SNAPSHOT)
  {
  }

  lemma ReplayNothing(c: Codec, start: Mark)
    ensures Replay(c, start, []) == NOTHING_YET
  {
  }

  lemma ReplayOneMore(c: Codec, start: Mark, rs: seq<Record>, r: Record)
    ensures Replay(c, start, rs + [r]) == HandleRecord(c, start, Replay(c, start, rs), r)
  {
    hide HandleRecord;
    assert (rs + [r])[..|rs|] == rs;
  }

  lemma SavedBytes(c: Codec, hs: HardState, ents: seq<Entry>)
    ensures EncodeAll(c.crc, SaveRecords(c, hs, ents))
      == EncodeAll(c.crc, EntryRecords(c, ents)) + EncodeAll(c.crc, StateRecords(c, hs))
    ensures hs == EMPTY_STATE && ents == [] ==> EncodeAll(c.crc, SaveRecords(c, hs, ents)) == []
  {
    EncodeConcat(c.crc, EntryRecords(c, ents), StateRecords(c, hs));
  }

  lemma NoRecords(c: Codec)
    ensures EncodeAll(c.crc, EntryRecords(c, [])) == []
  {
  }

  lemma OneMoreEntry(c: Codec, ents: seq<Entry>, i: nat)
    requires i < |ents|
    ensures EncodeAll(c.crc, EntryRecords(c, ents[..i + 1]))
      == EncodeAll(c.crc, EntryRecords(c, ents[..i])) + Encode(c.crc, Record(ENTRY, c.packEntry(ents[i])))
  {
    hide EncodeAll, Encode;
    assert ents[..i + 1][..i] == ents[..i];
    EncodeConcat(c.crc, EntryRecords(c, ents[..i]), [Record(ENTRY, c.packEntry(ents[i]))]);
    EncodeOne(c.crc, Record(ENTRY, c.packEntry(ents[i])));
  }

  lemma EncodeOne(crc: Checksum, r: Record)
    ensures EncodeAll(crc, [r]) == Encode(crc, r)
  {
    assert [r][1..] == [];
  }
}
