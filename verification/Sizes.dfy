/** Entry sizes and the size limit on batches (raft-kv/raft/util.cpp:7-20, raft-kv/raft/proto.cpp:98-153). */
module Sizes {
  import opened Proto

  function U64Size(d: nat): nat {
    if d < 0x80 then 1 else if d < 0x100 then 2 else if d < 0x1_0000 then 3
    else if d < 0x1_0000_0000 then 5 else 9
  }

  function DataSize(len: nat): nat {
    if len <= 0xFF then 2 + len else if len <= 0xFFFF then 3 + len else 5 + len
  }

  /** Entry::serialize_size; both entry kinds are small numbers, one byte each. */
  function EntrySize(e: Entry): nat {
    1 + 1 + U64Size(e.term) + U64Size(e.index) + DataSize(|e.data|)
  }

  function Total(entries: seq<Entry>): nat {
    if entries == [] then 0 else Total(entries[..|entries| - 1]) + EntrySize(entries[|entries| - 1])
  }

  lemma TotalStep(entries: seq<Entry>, k: nat)
    requires k < |entries|
    ensures Total(entries[..k + 1]) == Total(entries[..k]) + EntrySize(entries[k])
  {
    assert entries[..k + 1][..k] == entries[..k];
  }

  lemma {:induction false} TotalGrows(entries: seq<Entry>, k: nat, l: nat)
    requires k <= l <= |entries|
    ensures Total(entries[..k]) <= Total(entries[..l])
    decreases l - k
  {
    if k < l {
      TotalStep(entries, k);
      TotalGrows(entries, k + 1, l);
    }
  }

  /** r is the longest prefix of entries that fits max, but never empty when entries is not. */
  ghost predicate IsLimited(entries: seq<Entry>, max: nat, r: seq<Entry>) {
    && r <= entries
    && (entries != [] ==> r != [])
    && (|r| > 1 ==> Total(r) <= max)
    && (|r| < |entries| ==> Total(entries[..|r| + 1]) > max)
  }

  lemma NothingIsLimited(max: nat)
    ensures IsLimited([], max, [])
  {
  }

  /** The batch the limit leaves. */
  ghost function Limited(entries: seq<Entry>, max: nat): (r: seq<Entry>)
    ensures IsLimited(entries, max, r)
    decreases |entries|
  {
    if |entries| <= 1 || Total(entries) <= max then
      assert entries[..|entries|] == entries;
      entries
    else
      var shorter := entries[..|entries| - 1];
      var r := Limited(shorter, max);
      assert IsLimited(entries, max, r) by {
        if |r| < |shorter| {
          assert entries[..|r| + 1] == shorter[..|r| + 1];
        } else {
          assert entries[..|r| + 1] == entries;
        }
      }
      r
  }

  lemma LimitedIsEmpty(entries: seq<Entry>, max: nat)
    ensures Limited(entries, max) == [] <==> entries == []
  {
    hide Limited, Total;
    assert IsLimited(entries, max, Limited(entries, max));
  }

  /** entry_limit_size. */
  method LimitSize(max: nat, entries: seq<Entry>) returns (r: seq<Entry>)
    ensures IsLimited(entries, max, r)
  {
    if entries == [] {
      return entries;
    }
    var size := EntrySize(entries[0]);
    var limit := 1;
    TotalStep(entries, 0);
    while limit < |entries|
      invariant 1 <= limit <= |entries|
      invariant size == Total(entries[..limit])
      invariant limit > 1 ==> size <= max
    {
      TotalStep(entries, limit);
      size := size + EntrySize(entries[limit]);
      if size > max {
        return entries[..limit];
      }
      limit := limit + 1;
    }
    assert entries[..limit] == entries;
    return entries;
  }

  /** The limit determines the batch. */
  lemma LimitedIsUnique(entries: seq<Entry>, max: nat, r: seq<Entry>, s: seq<Entry>)
    requires IsLimited(entries, max, r) && IsLimited(entries, max, s)
    ensures r == s
  {
    assert r == entries[..|r|] && s == entries[..|s|];
    if |r| < |s| {
      TotalGrows(entries, |r| + 1, |s|);
    } else if |s| < |r| {
      TotalGrows(entries, |s| + 1, |r|);
    }
  }

  /** A first part that does not fit decides the result for the whole. */
  lemma LimitedEarly(a: seq<Entry>, b: seq<Entry>, max: nat, r: seq<Entry>)
    requires IsLimited(a, max, r) && |r| < |a|
    ensures IsLimited(a + b, max, r)
  {
    assert (a + b)[..|r| + 1] == a[..|r| + 1];
    assert r <= a + b;
  }
}
