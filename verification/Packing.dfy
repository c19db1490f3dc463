/**
 * What msgpack makes of an entry, and that Entry::serialize_size is its length
 * (raft-kv/raft/proto.h:83, raft-kv/raft/proto.cpp:97-153).
 */
module Packing {
  import opened Proto
  import opened Sizes

  // ---------------------------------------------------------------- numbers

  function Low(n: nat): Byte {
    var b: int := n % 0x100;
    b
  }

  /** The w low bytes of n, the highest first. */
  function Big(n: nat, w: nat): (b: seq<Byte>)
    ensures |b| == w
  {
    if w == 0 then [] else Big(n / 0x100, w - 1) + [Low(n)]
  }

  function Value(b: seq<Byte>): nat {
    if b == [] then 0 else 0x100 * Value(b[..|b| - 1]) + (b[|b| - 1] as nat)
  }

  function Pow(w: nat): nat { if w == 0 then 1 else 0x100 * Pow(w - 1) }

  lemma {:induction false} BigReads(n: nat, w: nat)
    requires n < Pow(w)
    ensures Value(Big(n, w)) == n
  {
    if w > 0 {
      BigReads(n / 0x100, w - 1);
      var b := Big(n, w);
      assert b[..|b| - 1] == Big(n / 0x100, w - 1) && b[|b| - 1] == Low(n);
    }
  }

  /** The shortest of the five forms. */
  function Uint(n: nat): seq<Byte> {
    if n < 0x80 then [n]
    else if n < 0x100 then [0xCC] + Big(n, 1)
    else if n < 0x1_0000 then [0xCD] + Big(n, 2)
    else if n < 0x1_0000_0000 then [0xCE] + Big(n, 4)
    else [0xCF] + Big(n, 8)
  }

  /** How many bytes follow the first one. */
  function Width(first: Byte): nat {
    if first == 0xCC then 1 else if first == 0xCD then 2 else if first == 0xCE then 4 else if first == 0xCF then 8 else 0
  }

  function ReadUint(b: seq<Byte>): nat
    requires b != [] && |b| >= 1 + Width(b[0])
  {
    if Width(b[0]) == 0 then b[0] as nat else Value(b[1..1 + Width(b[0])])
  }

  /** A number reads back, whatever follows it. */
  lemma UintReads(n: nat, post: seq<Byte>)
    requires n < 0x1_0000_0000_0000_0000
    ensures var b := Uint(n) + post;
      |b| >= 1 + Width(b[0]) && ReadUint(b) == n && b[1 + Width(b[0])..] == post
  {
    var b := Uint(n) + post;
    assert Pow(1) == 0x100 && Pow(2) == 0x1_0000 && Pow(4) == 0x1_0000_0000 && Pow(8) == 0x1_0000_0000_0000_0000;
    var w := Width(b[0]);
    if n >= 0x80 {
      assert b[1..1 + w] == Big(n, w);
      BigReads(n, w);
    }
  }

  // ---------------------------------------------------------------- entries

  function Bin(data: seq<Byte>): seq<Byte> {
    if |data| < 0x100 then [0xC4] + Big(|data|, 1) + data
    else if |data| < 0x1_0000 then [0xC5] + Big(|data|, 2) + data
    else [0xC6] + Big(|data|, 4) + data
  }

  /** An array of four: type, term, index, data. */
  function EntryBytes(e: Entry): seq<Byte> {
    [0x94] + Uint(if e.kind.Normal? then 0 else 1) + Uint(e.term) + Uint(e.index) + Bin(e.data)
  }

  /** serialize_size counts the bytes without making them. */
  lemma SizeIsLength(e: Entry)
    ensures EntrySize(e) == |EntryBytes(e)|
  {
  }
}
