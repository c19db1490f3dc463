/** The record format of the write-ahead log (raft-kv/wal/wal.h, raft-kv/wal/wal.cpp). */
module WalFormat {
  import opened Proto

  const INVALID: Byte := 0
  const ENTRY: Byte := 1
  const STATE: Byte := 2
  const CRC: Byte := 3
  const SNAPSHOT: Byte := 4

  const HEADER: nat := 8
  const MAX_LEN: nat := 0x00FF_FFFF
  const WORD: nat := 0x1_0000_0000

  datatype Record = Record(kind: Byte, data: seq<Byte>)

  /** The checksum is a parameter; all that matters is that it fits into 32 bits. */
  type Checksum = seq<Byte> -> nat

  // ---------------------------------------------------------------- header fields

  function Low(x: nat): (b: Byte)
    ensures b == x % 0x100
  {
    var m: int := x % 0x100;
    m
  }

  /** set_WAL_Record_len: a length that does not fit is cut to the greatest that does. */
  function LenBytes(len: nat): (b: seq<Byte>)
    ensures |b| == 3
  {
    var l := Min(len, MAX_LEN);
    [Low(l), Low(l / 0x100), Low(l / 0x100 / 0x100)]
  }

  /** WAL_Record_len. */
  function LenOf(b: seq<Byte>): nat
    requires |b| == 3
  {
    (b[2] as nat) * 0x1_0000 + (b[1] as nat) * 0x100 + (b[0] as nat)
  }

  lemma LenRoundTrip(len: nat)
    ensures LenOf(LenBytes(len)) == Min(len, MAX_LEN)
  {
  }

  function WordBytes(w: nat): (b: seq<Byte>)
    ensures |b| == 4
  {
    [Low(w), Low(w / 0x100), Low(w / 0x100 / 0x100), Low(w / 0x100 / 0x100 / 0x100)]
  }

  function WordOf(b: seq<Byte>): nat
    requires |b| == 4
  {
    (b[3] as nat) * 0x100_0000 + (b[2] as nat) * 0x1_0000 + (b[1] as nat) * 0x100 + (b[0] as nat)
  }

  lemma WordRoundTrip(w: nat)
    requires w < WORD
    ensures WordOf(WordBytes(w)) == w
  {
    var a := w / 0x100;
    var b := a / 0x100;
    var c := b / 0x100;
    assert w == a * 0x100 + w % 0x100;
    assert a == b * 0x100 + a % 0x100;
    assert b == c * 0x100 + b % 0x100;
    assert c < 0x100;
  }

  // ---------------------------------------------------------------- writing

  function Header(crc: Checksum, r: Record): (h: seq<Byte>)
    ensures |h| == HEADER
  {
    [r.kind] + LenBytes(|r.data|) + WordBytes(crc(r.data))
  }

  function Encode(crc: Checksum, r: Record): seq<Byte> { Header(crc, r) + r.data }

  function EncodeAll(crc: Checksum, rs: seq<Record>): seq<Byte> {
    if rs == [] then [] else Encode(crc, rs[0]) + EncodeAll(crc, rs[1..])
  }

  lemma {:induction false} EncodeConcat(crc: Checksum, a: seq<Record>, b: seq<Record>)
    ensures EncodeAll(crc, a + b) == EncodeAll(crc, a) + EncodeAll(crc, b)
  {
    if a == [] {
      assert a + b == b;
    } else {
      assert (a + b)[1..] == a[1..] + b;
      EncodeConcat(crc, a[1..], b);
    }
  }

  // ---------------------------------------------------------------- reading

  /** What reading makes of a file: its records, and where it is cut if it ends in the middle of one. */
  datatype Parsed = Parsed(records: seq<Record>, cut: Cut)

  datatype Cut = Keep | CutAt(offset: nat)

  predicate Sound(crc: Checksum, r: Record, word: nat) { word == 0 || word == crc(r.data) }

  function RecordAt(data: seq<Byte>, off: nat): Record
    requires off + HEADER + LenAt(data, off) <= |data|
  {
    Record(data[off], data[off + HEADER..off + HEADER + LenAt(data, off)])
  }

  function LenAt(data: seq<Byte>, off: nat): nat {
    if off + HEADER <= |data| then LenOf(data[off + 1..off + 4]) else 0
  }

  /** The loop of WAL::read_all from an offset on. */
  function Parse(crc: Checksum, data: seq<Byte>, off: nat): Parsed
    requires off <= |data|
    decreases |data| - off
  {
    if off == |data| then Parsed([], Keep)
    else if |data| - off < HEADER then Parsed([], CutAt(off))
    else if data[off] == INVALID then Parsed([], Keep)
    else if |data| - off - HEADER < LenAt(data, off) then Parsed([], CutAt(off))
    else
      var r := RecordAt(data, off);
      if !Sound(crc, r, WordOf(data[off + 4..off + 8])) then Parsed([], CutAt(off))
      else
        var p := Parse(crc, data, off + HEADER + |r.data|);
        Parsed([r] + p.records, p.cut)
  }

  /** Parse, one case per way the loop goes. */
  lemma ParseCases(crc: Checksum, data: seq<Byte>, off: nat)
    requires off <= |data|
    ensures off == |data| ==> Parse(crc, data, off) == Parsed([], Keep)
    ensures off < |data| < off + HEADER ==> Parse(crc, data, off) == Parsed([], CutAt(off))
    ensures off + HEADER <= |data| ==>
      if data[off] == INVALID then Parse(crc, data, off) == Parsed([], Keep)
      else if |data| < off + HEADER + LenAt(data, off) then Parse(crc, data, off) == Parsed([], CutAt(off))
      else
        var r := RecordAt(data, off);
        && |r.data| == LenAt(data, off)
        && if Sound(crc, r, WordOf(data[off + 4..off + 8]))
           then
             var rest := Parse(crc, data, off + HEADER + |r.data|);
             Parse(crc, data, off) == Parsed([r] + rest.records, rest.cut)
           else Parse(crc, data, off) == Parsed([], CutAt(off))
  {
    hide LenOf, WordOf, LenAt, Sound;
  }

  /** What is left of the file. */
  function Trimmed(data: seq<Byte>, cut: Cut): seq<Byte> {
    if cut.CutAt? && cut.offset <= |data| then data[..cut.offset] else data
  }

  // ---------------------------------------------------------------- what survives a crash

  predicate Writable(r: Record) { r.kind != INVALID && |r.data| <= MAX_LEN }

  ghost predicate AllWritable(rs: seq<Record>) { forall i | 0 <= i < |rs| :: Writable(rs[i]) }

  ghost predicate ValidChecksum(crc: Checksum) { forall d: seq<Byte> :: crc(d) < WORD }

  /** One round of the reading loop. */
  lemma ParseRecord(crc: Checksum, data: seq<Byte>, off: nat, r: Record)
    requires off + HEADER + |r.data| <= |data| && r.kind != INVALID
    requires LenAt(data, off) == |r.data| && RecordAt(data, off) == r
    requires Sound(crc, r, WordOf(data[off + 4..off + 8]))
    ensures var rest := Parse(crc, data, off + HEADER + |r.data|);
      Parse(crc, data, off) == Parsed([r] + rest.records, rest.cut)
  {
    hide LenOf, WordOf, LenAt, RecordAt, Sound;
    assert data[off] == RecordAt(data, off).kind by {
      KindAt(data, off);
    }
  }

  lemma KindAt(data: seq<Byte>, off: nat)
    requires off + HEADER + LenAt(data, off) <= |data|
    ensures RecordAt(data, off).kind == data[off]
  {
  }

  lemma ParseCut(crc: Checksum, data: seq<Byte>, off: nat)
    requires off < |data|
    requires |data| - off < HEADER || (data[off] != INVALID && |data| - off - HEADER < LenAt(data, off))
    ensures Parse(crc, data, off) == Parsed([], CutAt(off))
  {
    hide LenOf, WordOf, LenAt, RecordAt, Sound;
  }

  /** A record written at off is read back, and reading goes on behind it. */
  lemma ReadsBack(crc: Checksum, pre: seq<Byte>, r: Record, post: seq<Byte>)
    requires ValidChecksum(crc) && Writable(r)
    ensures var data := pre + Encode(crc, r) + post;
      var rest := Parse(crc, data, |pre| + |Encode(crc, r)|);
      Parse(crc, data, |pre|) == Parsed([r] + rest.records, rest.cut)
  {
    hide Parse, LenOf, WordOf, LenBytes, WordBytes;
    var data := pre + Encode(crc, r) + post;
    HeaderOf(crc, pre, r, post);
    LenRoundTrip(|r.data|);
    WordRoundTrip(crc(r.data));
    ParseRecord(crc, data, |pre|, r);
  }

  lemma HeaderOf(crc: Checksum, pre: seq<Byte>, r: Record, post: seq<Byte>)
    ensures var data := pre + Encode(crc, r) + post;
      var off := |pre|;
      && |data| >= off + HEADER + |r.data|
      && data[off] == r.kind
      && data[off + 1..off + 4] == LenBytes(|r.data|)
      && data[off + 4..off + 8] == WordBytes(crc(r.data))
      && data[off + HEADER..off + HEADER + |r.data|] == r.data
  {
    var data := pre + Encode(crc, r) + post;
    var off := |pre|;
    var h := Header(crc, r);
    assert data[off..off + HEADER] == h;
    assert h[1..4] == LenBytes(|r.data|);
    assert h[4..8] == WordBytes(crc(r.data));
    assert data[off + 1..off + 4] == h[1..4];
    assert data[off + 4..off + 8] == h[4..8];
  }

  /** Byte by byte: the kind, the length and the checksum, least byte first, and the data. */
  lemma RecordLayout(crc: Checksum, r: Record)
    requires ValidChecksum(crc) && Writable(r)
    ensures var b := Encode(crc, r);
      && |b| == 8 + |r.data| && b[0] == r.kind && b[8..] == r.data
      && (b[1] as nat) + 0x100 * (b[2] as nat) + 0x1_0000 * (b[3] as nat) == |r.data|
      && (b[4] as nat) + 0x100 * (b[5] as nat) + 0x1_0000 * (b[6] as nat) + 0x100_0000 * (b[7] as nat) == crc(r.data)
  {
    LenRoundTrip(|r.data|);
    WordRoundTrip(crc(r.data));
    hide LenBytes, WordBytes;
    var b, len, word := Encode(crc, r), LenBytes(|r.data|), WordBytes(crc(r.data));
    assert b[1] == len[0] && b[2] == len[1] && b[3] == len[2];
    assert b[4] == word[0] && b[5] == word[1] && b[6] == word[2] && b[7] == word[3];
  }

  /** A whole record is believed if its checksum is right or missing; otherwise the file is cut before it. */
  lemma WhatIsBelieved(crc: Checksum, pre: seq<Byte>, r: Record, word: nat, post: seq<Byte>)
    requires Writable(r) && word < WORD
    ensures var data := pre + ([r.kind] + LenBytes(|r.data|) + WordBytes(word) + r.data) + post;
      var off := |pre|;
      && off + 8 + |r.data| <= |data|
      && if word == 0 || word == crc(r.data)
         then
           var rest := Parse(crc, data, off + 8 + |r.data|);
           Parse(crc, data, off) == Parsed([r] + rest.records, rest.cut)
         else Parse(crc, data, off) == Parsed([], CutAt(off))
  {
    hide Parse, LenOf, WordOf, LenBytes, WordBytes;
    var marked: Checksum := _ => word;
    var data, off := pre + Encode(marked, r) + post, |pre|;
    HeaderOf(marked, pre, r, post);
    LenRoundTrip(|r.data|);
    WordRoundTrip(word);
    ParseCases(crc, data, off);
  }

  /** Where no record was ever written, reading ends, and the file stays as it is. */
  lemma BlankEnds(crc: Checksum, pre: seq<Byte>, post: seq<Byte>)
    requires |post| >= 8 && post[0] == 0
    ensures Parse(crc, pre + post, |pre|) == Parsed([], Keep)
  {
  }

  /** How many whole records the first p bytes hold. */
  function Whole(crc: Checksum, rs: seq<Record>, p: nat): (k: nat)
    ensures k <= |rs|
  {
    if rs == [] || p < |Encode(crc, rs[0])| then 0
    else 1 + Whole(crc, rs[1..], p - |Encode(crc, rs[0])|)
  }

  /** Whole is the largest number of records that fits. */
  lemma {:induction false} WholeIsLargest(crc: Checksum, rs: seq<Record>, p: nat, k: nat)
    requires k <= |rs|
    ensures |EncodeAll(crc, rs[..k])| <= p <==> k <= Whole(crc, rs, p)
  {
    if rs != [] && k > 0 {
      assert rs[..k][1..] == rs[1..][..k - 1];
      if p >= |Encode(crc, rs[0])| {
        WholeIsLargest(crc, rs[1..], p - |Encode(crc, rs[0])|, k - 1);
      }
    } else {
      assert rs[..k] == [];
    }
  }

  /** A record cut off in the middle is noticed, whatever part of it is there. */
  lemma CutIsNoticed(crc: Checksum, pre: seq<Byte>, r: Record, q: nat)
    requires ValidChecksum(crc) && Writable(r) && 0 < q < |Encode(crc, r)|
    ensures Parse(crc, pre + Encode(crc, r)[..q], |pre|) == Parsed([], CutAt(|pre|))
  {
    hide Parse, LenOf, WordOf, LenBytes, WordBytes;
    var data := pre + Encode(crc, r)[..q];
    var off := |pre|;
    if q >= HEADER {
      HeaderCut(crc, pre, r, q);
      LenRoundTrip(|r.data|);
    }
    ParseCut(crc, data, off);
  }

  lemma HeaderCut(crc: Checksum, pre: seq<Byte>, r: Record, q: nat)
    requires HEADER <= q < |Encode(crc, r)|
    ensures var data := pre + Encode(crc, r)[..q];
      && data[|pre|] == r.kind && data[|pre| + 1..|pre| + 4] == LenBytes(|r.data|)
  {
    hide LenOf, WordOf, LenBytes, WordBytes;
    var data := pre + Encode(crc, r)[..q];
    var whole := pre + Encode(crc, r) + [];
    HeaderOf(crc, pre, r, []);
    assert data[|pre| + 1..|pre| + 4] == whole[|pre| + 1..|pre| + 4];
  }

  /**
   * Torn-tail recovery: of a log cut off anywhere, reading returns exactly the records that are
   * wholly there, and leaves a file that holds exactly those.
   */
  lemma {:induction false} TornTail(crc: Checksum, pre: seq<Byte>, rs: seq<Record>, p: nat)
    requires ValidChecksum(crc) && AllWritable(rs) && p <= |EncodeAll(crc, rs)|
    ensures var data := pre + EncodeAll(crc, rs)[..p];
      var k := Whole(crc, rs, p);
      var parsed := Parse(crc, data, |pre|);
      && parsed.records == rs[..k]
      && Trimmed(data, parsed.cut) == pre + EncodeAll(crc, rs[..k])
    decreases |rs|
  {
    hide Parse, Encode, Trimmed;
    var data := pre + EncodeAll(crc, rs)[..p];
    if rs == [] || p == 0 {
      assert data == pre;
      NothingFits(crc, rs, p);
      ParseNothing(crc, pre);
    } else {
      var first := Encode(crc, rs[0]);
      if p < |first| {
        assert EncodeAll(crc, rs)[..p] == first[..p];
        CutIsNoticed(crc, pre, rs[0], p);
        CutBack(pre, first[..p]);
        assert rs[..0] == [];
      } else {
        var rest := EncodeAll(crc, rs[1..])[..p - |first|];
        assert EncodeAll(crc, rs)[..p] == first + rest;
        assert data == pre + first + rest;
        ReadsBack(crc, pre, rs[0], rest);
        TornTail(crc, pre + first, rs[1..], p - |first|);
        OneFurther(crc, pre, rs, Whole(crc, rs[1..], p - |first|));
      }
    }
  }

  lemma NothingFits(crc: Checksum, rs: seq<Record>, p: nat)
    requires rs == [] || p == 0
    ensures rs[..Whole(crc, rs, p)] == []
  {
  }

  lemma ParseNothing(crc: Checksum, pre: seq<Byte>)
    ensures Parse(crc, pre, |pre|) == Parsed([], Keep) && Trimmed(pre, Keep) == pre
  {
  }

  lemma CutBack(pre: seq<Byte>, part: seq<Byte>)
    ensures Trimmed(pre + part, CutAt(|pre|)) == pre
  {
  }

  lemma OneFurther(crc: Checksum, pre: seq<Byte>, rs: seq<Record>, k: nat)
    requires rs != [] && k <= |rs| - 1
    ensures rs[..k + 1] == [rs[0]] + rs[1..][..k]
    ensures pre + EncodeAll(crc, rs[..k + 1]) == (pre + Encode(crc, rs[0])) + EncodeAll(crc, rs[1..][..k])
  {
    hide Encode;
    assert rs[..k + 1][1..] == rs[1..][..k];
  }

  lemma TornTailAtStart(crc: Checksum, rs: seq<Record>, p: nat)
    requires ValidChecksum(crc) && AllWritable(rs) && p <= |EncodeAll(crc, rs)|
    ensures var data := EncodeAll(crc, rs)[..p];
      var k := Whole(crc, rs, p);
      && Parse(crc, data, 0).records == rs[..k]
      && Trimmed(data, Parse(crc, data, 0).cut) == EncodeAll(crc, rs[..k])
  {
    hide Parse, Encode, EncodeAll, Trimmed, Whole;
    TornTail(crc, [], rs, p);
    assert [] + EncodeAll(crc, rs)[..p] == EncodeAll(crc, rs)[..p];
    assert [] + EncodeAll(crc, rs[..Whole(crc, rs, p)]) == EncodeAll(crc, rs[..Whole(crc, rs, p)]);
  }

  lemma AllWritableConcat(rs: seq<Record>, k: nat, more: seq<Record>)
    requires AllWritable(rs) && AllWritable(more) && k <= |rs|
    ensures AllWritable(rs[..k] + more)
  {
  }

  /** A log that was not cut off is read back whole. */
  lemma WholeFile(crc: Checksum, rs: seq<Record>)
    requires ValidChecksum(crc) && AllWritable(rs)
    ensures var data := EncodeAll(crc, rs);
      Parse(crc, data, 0).records == rs && Trimmed(data, Parse(crc, data, 0).cut) == data
  {
    hide Parse, Encode, EncodeAll, Trimmed, Whole;
    var data := EncodeAll(crc, rs);
    assert data[..|data|] == data && rs[..|rs|] == rs;
    TornTailAtStart(crc, rs, |data|);
    WholeIsLargest(crc, rs, |data|, |rs|);
  }

  /** What is written after the recovery reads back behind what was recovered. */
  lemma AppendAfterRecovery(crc: Checksum, rs: seq<Record>, p: nat, more: seq<Record>)
    requires ValidChecksum(crc) && AllWritable(rs) && AllWritable(more) && p <= |EncodeAll(crc, rs)|
    ensures var data := EncodeAll(crc, rs)[..p];
      var file := Trimmed(data, Parse(crc, data, 0).cut) + EncodeAll(crc, more);
      && Parse(crc, file, 0).records == Parse(crc, data, 0).records + more
      && Trimmed(file, Parse(crc, file, 0).cut) == file
  {
    hide *;
    var data := EncodeAll(crc, rs)[..p];
    var k := Whole(crc, rs, p);
    TornTailAtStart(crc, rs, p);
    EncodeConcat(crc, rs[..k], more);
    AllWritableConcat(rs, k, more);
    WholeFile(crc, rs[..k] + more);
  }
}
