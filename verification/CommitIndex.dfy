/** The commit index a leader reads off its sorted match values (raft-kv/raft/raft.cpp:1361-1372). */
module CommitIndex {
  import opened Proto
  import Quorum

  ghost predicate IsSorted(s: seq<nat>) {
    forall i, j | 0 <= i < j < |s| :: s[i] <= s[j]
  }

  /** How many values reach x. */
  function CountGE(s: seq<nat>, x: nat): nat {
    if s == [] then 0 else (if s[0] >= x then 1 else 0) + CountGE(s[1..], x)
  }

  function Insert(v: nat, s: seq<nat>): seq<nat> {
    if s == [] || v <= s[0] then [v] + s else [s[0]] + Insert(v, s[1..])
  }

  function Sort(s: seq<nat>): (r: seq<nat>)
    ensures |r| == |s|
  {
    if s == [] then [] else
      var r := Sort(s[1..]);
      InsertLength(s[0], r);
      Insert(s[0], r)
  }

  lemma InsertLength(v: nat, s: seq<nat>)
    ensures |Insert(v, s)| == |s| + 1
  {
  }

  lemma {:induction false} InsertSorts(v: nat, s: seq<nat>, x: nat)
    requires IsSorted(s)
    ensures IsSorted(Insert(v, s))
    ensures CountGE(Insert(v, s), x) == CountGE(s, x) + if v >= x then 1 else 0
    ensures Insert(v, s) != [] && Insert(v, s)[0] >= if s == [] then v else Min(v, s[0])
  {
    if s == [] || v <= s[0] {
      assert ([v] + s)[1..] == s;
    } else {
      InsertSorts(v, s[1..], x);
      var r := Insert(v, s[1..]);
      assert ([s[0]] + r)[1..] == r;
    }
  }

  lemma {:induction false} SortSorts(s: seq<nat>, x: nat)
    ensures IsSorted(Sort(s)) && CountGE(Sort(s), x) == CountGE(s, x)
  {
    if s != [] {
      SortSorts(s[1..], x);
      InsertSorts(s[0], Sort(s[1..]), x);
    }
  }

  lemma {:induction false} CountBounds(s: seq<nat>, k: nat, x: nat)
    requires IsSorted(s) && k < |s|
    ensures CountGE(s, x) <= |s|
    ensures s[k] >= x ==> CountGE(s, x) >= |s| - k
    ensures s[k] < x ==> CountGE(s, x) < |s| - k
  {
    var rest := s[1..];
    assert forall i | 0 <= i < |rest| :: rest[i] == s[i + 1];
    if |s| > 1 {
      CountBounds(rest, if k == 0 then 0 else k - 1, x);
    } else {
      assert rest == [];
    }
  }

  lemma {:induction false} CountAppend(s: seq<nat>, v: nat, x: nat)
    ensures CountGE(s + [v], x) == CountGE(s, x) + if v >= x then 1 else 0
  {
    if s == [] {
      assert ([v])[1..] == [];
    } else {
      assert (s + [v])[1..] == s[1..] + [v];
      CountAppend(s[1..], v, x);
    }
  }

  /** The sorted value at size - quorum is the greatest index that a majority has reached. */
  lemma SortedIsMajority(voters: set<Id>, matched: map<Id, nat>, buf: seq<nat>)
    requires voters != {} && |buf| == |voters|
    requires forall x: nat :: CountGE(buf, x) == |Quorum.Backers(voters, matched, x)|
    ensures Sort(buf)[|buf| - Quorum.Size(voters)] == Quorum.MajorityIndex(voters, matched)
  {
    var k := |buf| - Quorum.Size(voters);
    var v := Sort(buf)[k];
    var top := Quorum.MajorityIndex(voters, matched);
    SortSorts(buf, v);
    CountBounds(Sort(buf), k, v);
    assert Quorum.Backed(voters, matched, v);
    SortSorts(buf, top);
    CountBounds(Sort(buf), k, top);
  }

  /** maybe_commit's match buffer: one value per voter, in whatever order the map yields them. */
  method MajorityMatch(voters: set<Id>, matched: map<Id, nat>) returns (mci: nat)
    requires voters != {}
    ensures mci == Quorum.MajorityIndex(voters, matched)
  {
    var buf := [];
    var todo := voters;
    while todo != {}
      invariant todo <= voters
      invariant |buf| == |voters - todo|
      invariant forall x: nat :: CountGE(buf, x) == |Quorum.Backers(voters - todo, matched, x)|
      decreases |todo|
    {
      var j :| j in todo;
      var v := Quorum.Known(matched, j);
      ghost var done := voters - todo;
      todo := todo - {j};
      assert voters - todo == done + {j};
      forall x: nat ensures CountGE(buf + [v], x) == |Quorum.Backers(voters - todo, matched, x)| {
        CountAppend(buf, v, x);
        BackersGrow(done, matched, j, x);
      }
      buf := buf + [v];
    }
    assert voters - todo == voters;
    SortedIsMajority(voters, matched, buf);
    mci := Sort(buf)[|buf| - Quorum.Size(voters)];
  }

  lemma BackersGrow(done: set<Id>, matched: map<Id, nat>, j: Id, x: nat)
    requires j !in done
    ensures |Quorum.Backers(done + {j}, matched, x)|
      == |Quorum.Backers(done, matched, x)| + if Quorum.Known(matched, j) >= x then 1 else 0
  {
    var before, after := Quorum.Backers(done, matched, x), Quorum.Backers(done + {j}, matched, x);
    assert after == if Quorum.Known(matched, j) >= x then before + {j} else before;
  }
}
